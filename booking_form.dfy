/** The booking form preselects a room type from the `room` URL parameter. The slug is
    matched against the room-type names in four stages: the name itself, the name in
    hyphenated form, a keyword test in either direction, and a short table of special
    keys. All comparisons are on the lower-cased, trimmed slug. */
module BookingForm {
  import opened JsStrings
  import opened Seqs

  /** The room types the form offers, in declared order. */
  const RoomTypes: seq<string> := [
    "Standard", "Superior", "Deluxe", "Deluxe Partial Ocean View", "Senior Ocean View",
    "Senior Triple", "Senior Family", "Suite", "Apartment"
  ]

  /** The same names lower-cased, and in hyphenated form, for reasoning about the stages. */
  const LowerTypes: seq<string> := [
    "standard", "superior", "deluxe", "deluxe partial ocean view", "senior ocean view",
    "senior triple", "senior family", "suite", "apartment"
  ]

  const SlugTypes: seq<string> := [
    "standard", "superior", "deluxe", "deluxe-partial-ocean-view", "senior-ocean-view",
    "senior-triple", "senior-family", "suite", "apartment"
  ]

  /** The special keys and their room types, in the order the table enumerates them. */
  const SpecialMappings: seq<(string, string)> := [
    ("deluxe-partial", "Deluxe Partial Ocean View"),
    ("senior-view", "Senior Ocean View"),
    ("ocean-view", "Senior Ocean View"),
    ("triple", "Senior Triple"),
    ("family", "Senior Family")
  ]

  /** `value.toLowerCase().replace(/\s+/g, '-')`. */
  function RoomSlug(roomType: string): string {
    HyphenateWhitespace(ToLower(roomType))
  }

  /** `slug.toLowerCase().trim()`. */
  function Normalized(slug: string): string {
    Trim(ToLower(slug))
  }

  predicate NameIs(normalized: string, t: string) {
    ToLower(t) == normalized
  }

  predicate SlugIs(normalized: string, t: string) {
    RoomSlug(t) == normalized
  }

  /** The keyword test: the slug holds the type's hyphenated name, or the type's name
      holds the slug with its hyphens read as spaces. */
  predicate Keyword(normalized: string, t: string) {
    Includes(normalized, RoomSlug(t)) || Includes(ToLower(t), ReplaceChar(normalized, '-', ' '))
  }

  predicate HoldsKey(normalized: string, entry: (string, string)) {
    Includes(normalized, entry.0)
  }

  function SameName(normalized: string): string -> bool {
    (t: string) => NameIs(normalized, t)
  }

  function SameSlug(normalized: string): string -> bool {
    (t: string) => SlugIs(normalized, t)
  }

  function KeywordHit(normalized: string): string -> bool {
    (t: string) => Keyword(normalized, t)
  }

  function HasKey(normalized: string): ((string, string)) -> bool {
    (entry: (string, string)) => HoldsKey(normalized, entry)
  }

  /** The special-table stage: the room type of the first key the slug holds. */
  function SpecialMatch(normalized: string): (r: Option<string>)
    ensures r.Some? ==> r.value in RoomTypes
    ensures r.None? <==> forall k :: 0 <= k < |SpecialMappings| ==> !Includes(normalized, SpecialMappings[k].0)
    ensures r.Some? ==> exists k :: 0 <= k < |SpecialMappings| && Includes(normalized, SpecialMappings[k].0)
                                    && r.value == SpecialMappings[k].1
                                    && forall j :: 0 <= j < k ==> !Includes(normalized, SpecialMappings[j].0)
  {
    match FindIndex(SpecialMappings, HasKey(normalized))
    case None => None
    case Some(k) => Some(SpecialMappings[k].1)
  }

  /** Stage one: the first room type whose lower-cased name is the slug. */
  function NameStage(n: string): (r: Option<string>)
    ensures r.Some? ==> r.value in RoomTypes && ToLower(r.value) == n
    ensures r.None? <==> forall j :: 0 <= j < |RoomTypes| ==> !NameIs(n, RoomTypes[j])
  {
    Find(RoomTypes, SameName(n))
  }

  /** Stage two: the first room type whose hyphenated name is the slug. */
  function SlugStage(n: string): (r: Option<string>)
    ensures r.Some? ==> r.value in RoomTypes && RoomSlug(r.value) == n
    ensures r.None? <==> forall j :: 0 <= j < |RoomTypes| ==> !SlugIs(n, RoomTypes[j])
  {
    Find(RoomTypes, SameSlug(n))
  }

  /** Stage three: the first room type the keyword test accepts. */
  function KeywordStage(n: string): (r: Option<string>)
    ensures r.Some? ==> r.value in RoomTypes && Keyword(n, r.value)
    ensures r.None? <==> forall j :: 0 <= j < |RoomTypes| ==> !Keyword(n, RoomTypes[j])
  {
    Find(RoomTypes, KeywordHit(n))
  }

  /** `normalizeSlugToRoomType(slug)`: each stage is tried only when the earlier ones
      found nothing, and within a stage the first room type in declared order wins. */
  function NormalizeSlugToRoomType(slug: string): (r: Option<string>)
    ensures r.Some? ==> r.value in RoomTypes
  {
    Stages(Normalized(slug))
  }

  function Stages(n: string): (r: Option<string>)
    ensures r.Some? ==> r.value in RoomTypes
  {
    if NameStage(n).Some? then NameStage(n)
    else if SlugStage(n).Some? then SlugStage(n)
    else if KeywordStage(n).Some? then KeywordStage(n)
    else SpecialMatch(n)
  }

  /** `toLowerCase` of a literal name, character by character. */
  lemma LowerName(t: string, lower: string)
    requires |t| == |lower| && forall k :: 0 <= k < |t| ==> LowerChar(t[k]) == lower[k]
    ensures ToLower(t) == lower
  {
  }

  /** A name whose lower-cased form is made of the given words hyphenates to those
      words joined by '-'. */
  lemma SpacedName(t: string, words: seq<string>)
    requires |words| >= 1 && forall i :: 0 <= i < |words| ==> Word(words[i])
    requires ToLower(t) == Join(words, " ")
    ensures RoomSlug(t) == Join(words, "-")
  {
    HyphenateWords(words);
  }

  /** A one-word name lower-cases to `lower` and hyphenates to it unchanged. */
  lemma OneWordName(t: string, lower: string)
    requires |t| == |lower| && forall k :: 0 <= k < |t| ==> LowerChar(t[k]) == lower[k]
    requires forall k :: 0 <= k < |lower| ==> 'a' <= lower[k] <= 'z'
    ensures ToLower(t) == lower && RoomSlug(t) == lower
  {
    LowerName(t, lower);
    HyphenateNoWhitespace(lower);
  }

  lemma StandardNames()
    ensures ToLower(RoomTypes[0]) == LowerTypes[0] && RoomSlug(RoomTypes[0]) == SlugTypes[0]
  {
    OneWordName("Standard", "standard");
  }

  lemma SuperiorNames()
    ensures ToLower(RoomTypes[1]) == LowerTypes[1] && RoomSlug(RoomTypes[1]) == SlugTypes[1]
  {
    OneWordName("Superior", "superior");
  }

  lemma DeluxeNames()
    ensures ToLower(RoomTypes[2]) == LowerTypes[2] && RoomSlug(RoomTypes[2]) == SlugTypes[2]
  {
    OneWordName("Deluxe", "deluxe");
  }

  lemma SuiteNames()
    ensures ToLower(RoomTypes[7]) == LowerTypes[7] && RoomSlug(RoomTypes[7]) == SlugTypes[7]
  {
    OneWordName("Suite", "suite");
  }

  lemma ApartmentNames()
    ensures ToLower(RoomTypes[8]) == LowerTypes[8] && RoomSlug(RoomTypes[8]) == SlugTypes[8]
  {
    OneWordName("Apartment", "apartment");
  }

  /** A non-empty run of lower-case ASCII letters. */
  predicate LowerAscii(w: string) {
    |w| > 0 && forall k :: 0 <= k < |w| ==> 'a' <= w[k] <= 'z'
  }

  /** A run of lower-case ASCII letters is a word. */
  lemma LowerWord(w: string)
    requires LowerAscii(w)
    ensures Word(w)
  {
  }

  lemma JoinTwo(a: string, b: string, sep: string)
    ensures Join([a, b], sep) == a + sep + b
  {
  }

  lemma JoinThree(a: string, b: string, c: string, sep: string)
    ensures Join([a, b, c], sep) == a + sep + b + sep + c
  {
    assert [a, b, c][1..] == [b, c];
    JoinTwo(b, c, sep);
  }

  lemma JoinFour(a: string, b: string, c: string, d: string, sep: string)
    ensures Join([a, b, c, d], sep) == a + sep + b + sep + c + sep + d
  {
    assert [a, b, c, d][1..] == [b, c, d];
    JoinThree(b, c, d, sep);
  }

  lemma DeluxePartialSpaced()
    ensures Join(["deluxe", "partial", "ocean", "view"], " ") == LowerTypes[3]
  {
    JoinFour("deluxe", "partial", "ocean", "view", " ");
  }

  lemma DeluxePartialHyphenated()
    ensures Join(["deluxe", "partial", "ocean", "view"], "-") == SlugTypes[3]
  {
    JoinFour("deluxe", "partial", "ocean", "view", "-");
  }

  lemma DeluxePartialLower()
    ensures ToLower(RoomTypes[3]) == LowerTypes[3]
  {
    var t := RoomTypes[3];
    forall k | 0 <= k < |t| ensures ToLower(t)[k] == LowerTypes[3][k] {
      assert ToLower(t)[k] == LowerChar(t[k]);
    }
  }

  lemma DeluxePartialNames()
    ensures ToLower(RoomTypes[3]) == LowerTypes[3] && RoomSlug(RoomTypes[3]) == SlugTypes[3]
  {
    var w := ["deluxe", "partial", "ocean", "view"];
    LowerWord(w[0]); LowerWord(w[1]); LowerWord(w[2]); LowerWord(w[3]);
    DeluxePartialLower();
    DeluxePartialSpaced();
    DeluxePartialHyphenated();
    SpacedName(RoomTypes[3], w);
  }

  lemma SeniorOceanSpaced()
    ensures Join(["senior", "ocean", "view"], " ") == LowerTypes[4]
  {
    JoinThree("senior", "ocean", "view", " ");
  }

  lemma SeniorOceanHyphenated()
    ensures Join(["senior", "ocean", "view"], "-") == SlugTypes[4]
  {
    JoinThree("senior", "ocean", "view", "-");
  }

  lemma SeniorOceanLower()
    ensures ToLower(RoomTypes[4]) == LowerTypes[4]
  {
    var t := RoomTypes[4];
    forall k | 0 <= k < |t| ensures ToLower(t)[k] == LowerTypes[4][k] {
      assert ToLower(t)[k] == LowerChar(t[k]);
    }
  }

  lemma SeniorOceanNames()
    ensures ToLower(RoomTypes[4]) == LowerTypes[4] && RoomSlug(RoomTypes[4]) == SlugTypes[4]
  {
    var w := ["senior", "ocean", "view"];
    LowerWord(w[0]); LowerWord(w[1]); LowerWord(w[2]);
    SeniorOceanLower();
    SeniorOceanSpaced();
    SeniorOceanHyphenated();
    SpacedName(RoomTypes[4], w);
  }

  lemma SeniorTripleSpaced()
    ensures Join(["senior", "triple"], " ") == LowerTypes[5]
  {
    JoinTwo("senior", "triple", " ");
  }

  lemma SeniorTripleHyphenated()
    ensures Join(["senior", "triple"], "-") == SlugTypes[5]
  {
    JoinTwo("senior", "triple", "-");
  }

  lemma SeniorTripleLower()
    ensures ToLower(RoomTypes[5]) == LowerTypes[5]
  {
    var t := RoomTypes[5];
    forall k | 0 <= k < |t| ensures ToLower(t)[k] == LowerTypes[5][k] {
      assert ToLower(t)[k] == LowerChar(t[k]);
    }
  }

  lemma SeniorTripleNames()
    ensures ToLower(RoomTypes[5]) == LowerTypes[5] && RoomSlug(RoomTypes[5]) == SlugTypes[5]
  {
    var w := ["senior", "triple"];
    LowerWord(w[0]); LowerWord(w[1]);
    SeniorTripleLower();
    SeniorTripleSpaced();
    SeniorTripleHyphenated();
    SpacedName(RoomTypes[5], w);
  }

  lemma SeniorFamilySpaced()
    ensures Join(["senior", "family"], " ") == LowerTypes[6]
  {
    JoinTwo("senior", "family", " ");
  }

  lemma SeniorFamilyHyphenated()
    ensures Join(["senior", "family"], "-") == SlugTypes[6]
  {
    JoinTwo("senior", "family", "-");
  }

  lemma SeniorFamilyLower()
    ensures ToLower(RoomTypes[6]) == LowerTypes[6]
  {
    var t := RoomTypes[6];
    forall k | 0 <= k < |t| ensures ToLower(t)[k] == LowerTypes[6][k] {
      assert ToLower(t)[k] == LowerChar(t[k]);
    }
  }

  lemma SeniorFamilyNames()
    ensures ToLower(RoomTypes[6]) == LowerTypes[6] && RoomSlug(RoomTypes[6]) == SlugTypes[6]
  {
    var w := ["senior", "family"];
    LowerWord(w[0]); LowerWord(w[1]);
    SeniorFamilyLower();
    SeniorFamilySpaced();
    SeniorFamilyHyphenated();
    SpacedName(RoomTypes[6], w);
  }

  /** The lower-cased and hyphenated forms of the `i`th room type. */
  lemma TypeNames(i: nat)
    requires i < |RoomTypes|
    ensures ToLower(RoomTypes[i]) == LowerTypes[i]
    ensures RoomSlug(RoomTypes[i]) == SlugTypes[i]
  {
    if i == 0 {
      StandardNames();
    } else if i == 1 {
      SuperiorNames();
    } else if i == 2 {
      DeluxeNames();
    } else if i == 3 {
      DeluxePartialNames();
    } else if i == 4 {
      SeniorOceanNames();
    } else if i == 5 {
      SeniorTripleNames();
    } else if i == 6 {
      SeniorFamilyNames();
    } else if i == 7 {
      SuiteNames();
    } else {
      ApartmentNames();
    }
  }

  /** The slug is read ignoring case and surrounding whitespace. */
  lemma NormalizeIgnoresCaseAndPadding(pre: string, s1: string, s2: string, post: string)
    requires forall k :: 0 <= k < |pre| ==> IsWhitespace(pre[k])
    requires forall k :: 0 <= k < |post| ==> IsWhitespace(post[k])
    requires ToLower(s1) == ToLower(s2)
    ensures NormalizeSlugToRoomType(pre + s1 + post) == NormalizeSlugToRoomType(s2)
  {
    ToLowerConcat(pre + s1, post);
    ToLowerConcat(pre, s1);
    ToLowerOfWhitespace(pre);
    ToLowerOfWhitespace(post);
    TrimPadded(pre, ToLower(s1), post);
  }

  lemma LowerTypesDistinct()
    ensures forall i, j :: 0 <= i < j < |LowerTypes| ==> LowerTypes[i] != LowerTypes[j]
  {
  }

  lemma SlugTypesDistinct()
    ensures forall i, j :: 0 <= i < j < |SlugTypes| ==> SlugTypes[i] != SlugTypes[j]
  {
  }

  /** Stage one decides when it finds a room type. */
  lemma DecidedByName(n: string, i: nat)
    requires i < |RoomTypes| && NameIs(n, RoomTypes[i])
    requires forall j :: 0 <= j < i ==> !NameIs(n, RoomTypes[j])
    ensures Stages(n) == Some(RoomTypes[i])
  {
    FindFirst(RoomTypes, SameName(n), i);
  }

  /** Stage two decides when stage one finds nothing and it finds a room type. */
  lemma DecidedBySlug(n: string, i: nat)
    requires forall j :: 0 <= j < |RoomTypes| ==> !NameIs(n, RoomTypes[j])
    requires i < |RoomTypes| && SlugIs(n, RoomTypes[i])
    requires forall j :: 0 <= j < i ==> !SlugIs(n, RoomTypes[j])
    ensures Stages(n) == Some(RoomTypes[i])
  {
    assert forall j :: 0 <= j < |RoomTypes| ==> !SameName(n)(RoomTypes[j]);
    FindFirst(RoomTypes, SameSlug(n), i);
  }

  /** Within the keyword stage the first room type the test accepts wins. */
  lemma KeywordStageFinds(n: string, i: nat)
    requires i < |RoomTypes| && Keyword(n, RoomTypes[i])
    requires forall j :: 0 <= j < i ==> !Keyword(n, RoomTypes[j])
    ensures KeywordStage(n) == Some(RoomTypes[i])
  {
    FindFirst(RoomTypes, KeywordHit(n), i);
  }

  /** Stage three decides when the name stages find nothing and it finds a room type. */
  lemma DecidedByKeyword(n: string, i: nat)
    requires forall j :: 0 <= j < |RoomTypes| ==> !NameIs(n, RoomTypes[j])
    requires forall j :: 0 <= j < |RoomTypes| ==> !SlugIs(n, RoomTypes[j])
    requires i < |RoomTypes| && Keyword(n, RoomTypes[i])
    requires forall j :: 0 <= j < i ==> !Keyword(n, RoomTypes[j])
    ensures Stages(n) == Some(RoomTypes[i])
  {
    assert NameStage(n).None? && SlugStage(n).None?;
    KeywordStageFinds(n, i);
  }

  /** When no name, slug or keyword matches, the special table decides, and the result
      is null exactly when the slug holds none of its keys. */
  lemma DecidedBySpecial(n: string)
    requires forall j :: 0 <= j < |RoomTypes| ==> !NameIs(n, RoomTypes[j])
    requires forall j :: 0 <= j < |RoomTypes| ==> !SlugIs(n, RoomTypes[j])
    requires forall j :: 0 <= j < |RoomTypes| ==> !Keyword(n, RoomTypes[j])
    ensures Stages(n) == SpecialMatch(n)
    ensures Stages(n).None? <==> forall k :: 0 <= k < |SpecialMappings| ==> !Includes(n, SpecialMappings[k].0)
  {
    assert NameStage(n).None? && SlugStage(n).None? && KeywordStage(n).None?;
  }

  /** The lower-cased name of a room type is decided by the name stage, as that room type. */
  lemma NameDecides(i: nat)
    requires i < |RoomTypes|
    ensures Stages(LowerTypes[i]) == Some(RoomTypes[i])
  {
    var n := LowerTypes[i];
    LowerTypesDistinct();
    forall j | 0 <= j < i ensures !NameIs(n, RoomTypes[j]) {
      TypeNames(j);
    }
    TypeNames(i);
    DecidedByName(n, i);
  }

  /** Every room type is found by its own name in the first stage. */
  lemma RoomTypeMapsToItself(i: nat)
    requires i < |RoomTypes|
    ensures NormalizeSlugToRoomType(RoomTypes[i]) == Some(RoomTypes[i])
  {
    TypeNames(i);
    LowerTypeNormalized(i);
    NameDecides(i);
  }

  /** A parameter that spells a room type in any case, with any surrounding whitespace,
      preselects that room type. */
  lemma SpelledRoomTypeSelected(i: nat, pre: string, s: string, post: string)
    requires i < |RoomTypes|
    requires forall k :: 0 <= k < |pre| ==> IsWhitespace(pre[k])
    requires forall k :: 0 <= k < |post| ==> IsWhitespace(post[k])
    requires ToLower(s) == ToLower(RoomTypes[i])
    ensures NormalizeSlugToRoomType(pre + s + post) == Some(RoomTypes[i])
  {
    NormalizeIgnoresCaseAndPadding(pre, s, RoomTypes[i], post);
    RoomTypeMapsToItself(i);
  }

  /** Lower-case letters joined by a space or a hyphen stay as they are under
      `toLowerCase`. */
  lemma {:induction false} JoinedLowerFixed(words: seq<string>, sep: string)
    requires |words| >= 1 && forall k :: 0 <= k < |words| ==> LowerAscii(words[k])
    requires sep == " " || sep == "-"
    ensures ToLower(Join(words, sep)) == Join(words, sep)
    decreases |words|
  {
    LowerFixed(words[0]);
    if |words| > 1 {
      JoinedLowerFixed(words[1..], sep);
      LowerFixed(sep);
      ToLowerConcat(words[0] + sep, Join(words[1..], sep));
      ToLowerConcat(words[0], sep);
    }
  }

  lemma {:induction false} JoinLast(words: seq<string>, sep: string)
    requires |words| >= 1 && |words[|words| - 1]| > 0
    ensures |Join(words, sep)| > 0
    ensures Join(words, sep)[|Join(words, sep)| - 1] == words[|words| - 1][|words[|words| - 1]| - 1]
    decreases |words|
  {
    if |words| > 1 {
      JoinLast(words[1..], sep);
    }
  }

  /** Lower-case words joined by a space or a hyphen are their own normalized form. */
  lemma JoinedNormalized(words: seq<string>, sep: string)
    requires |words| >= 1 && forall k :: 0 <= k < |words| ==> LowerAscii(words[k])
    requires sep == " " || sep == "-"
    ensures Normalized(Join(words, sep)) == Join(words, sep)
  {
    JoinedLowerFixed(words, sep);
    JoinHead(words, sep);
    JoinLast(words, sep);
    TrimFixed(Join(words, sep));
  }

  /** The words of each lower-cased name, in order. */
  const TypeWords: seq<seq<string>> := [
    ["standard"], ["superior"], ["deluxe"], ["deluxe", "partial", "ocean", "view"],
    ["senior", "ocean", "view"], ["senior", "triple"], ["senior", "family"], ["suite"], ["apartment"]
  ]

  lemma TypeWordsLower(i: nat)
    requires i < |TypeWords|
    ensures |TypeWords[i]| >= 1 && forall k :: 0 <= k < |TypeWords[i]| ==> LowerAscii(TypeWords[i][k])
  {
  }

  /** The lower-cased names and slugs are the words joined by spaces and by hyphens. */
  lemma TypeWordsJoin(i: nat)
    requires i < |TypeWords|
    ensures Join(TypeWords[i], " ") == LowerTypes[i] && Join(TypeWords[i], "-") == SlugTypes[i]
  {
    if i == 0 {
    } else if i == 1 {
    } else if i == 2 {
    } else if i == 3 {
      DeluxePartialSpaced();
      DeluxePartialHyphenated();
    } else if i == 4 {
      SeniorOceanSpaced();
      SeniorOceanHyphenated();
    } else if i == 5 {
      SeniorTripleSpaced();
      SeniorTripleHyphenated();
    } else if i == 6 {
      SeniorFamilySpaced();
      SeniorFamilyHyphenated();
    } else if i == 7 {
    } else {
    }
  }

  /** Each lower-cased name is already lower-case and trimmed. */
  lemma LowerTypeNormalized(i: nat)
    requires i < |LowerTypes|
    ensures Normalized(LowerTypes[i]) == LowerTypes[i]
  {
    TypeWordsLower(i);
    TypeWordsJoin(i);
    JoinedNormalized(TypeWords[i], " ");
  }

  /** Each slug is already lower-case and trimmed. */
  lemma SlugNormalized(i: nat)
    requires i < |SlugTypes|
    ensures Normalized(SlugTypes[i]) == SlugTypes[i]
  {
    TypeWordsLower(i);
    TypeWordsJoin(i);
    JoinedNormalized(TypeWords[i], "-");
  }

  /** A slug with a hyphen is no room type's lower-cased name. */
  lemma HyphenatedSlugsNotNames()
    ensures forall i, j :: 3 <= i <= 6 && 0 <= j < |LowerTypes| ==> LowerTypes[j] != SlugTypes[i]
  {
  }

  /** A hyphenated slug that is no room type's lower-cased name is decided by the slug
      stage. */
  lemma HyphenatedSlugRoundTrip(i: nat)
    requires 3 <= i <= 6
    ensures NormalizeSlugToRoomType(SlugTypes[i]) == Some(RoomTypes[i])
  {
    var slug := SlugTypes[i];
    SlugNormalized(i);
    HyphenatedSlugsNotNames();
    forall j | 0 <= j < |RoomTypes| ensures !NameIs(slug, RoomTypes[j]) {
      TypeNames(j);
    }
    SlugTypesDistinct();
    forall j | 0 <= j < i ensures !SlugIs(slug, RoomTypes[j]) {
      TypeNames(j);
    }
    TypeNames(i);
    DecidedBySlug(slug, i);
  }

  /** The one-word room types hyphenate to their lower-cased names. */
  lemma OneWordSlugs()
    ensures forall i :: 0 <= i < |RoomTypes| && !(3 <= i <= 6) ==> SlugTypes[i] == LowerTypes[i]
  {
  }

  /** The hyphenated slug of a room type is mapped back to that room type. */
  lemma SlugRoundTrip(i: nat)
    requires i < |RoomTypes|
    ensures NormalizeSlugToRoomType(RoomSlug(RoomTypes[i])) == Some(RoomTypes[i])
  {
    TypeNames(i);
    if 3 <= i <= 6 {
      HyphenatedSlugRoundTrip(i);
    } else {
      OneWordSlugs();
      LowerTypeNormalized(i);
      NameDecides(i);
    }
  }

  lemma DeluxeKeyword(n: string)
    requires Includes(n, "deluxe-partial")
    ensures Keyword(n, RoomTypes[2])
  {
    assert "deluxe-partial" == "deluxe" + "-partial";
    IncludesPrefix(n, "deluxe", "-partial");
    TypeNames(2);
  }

  /** Any slug holding 'deluxe-partial' holds 'deluxe', which the keyword stage accepts
      for Deluxe, so the first entry of the special table never decides the result. */
  lemma DeluxePartialKeyUnreachable(slug: string)
    requires Includes(Normalized(slug), "deluxe-partial")
    ensures KeywordStage(Normalized(slug)).Some?
    ensures NormalizeSlugToRoomType(slug).Some?
  {
    DeluxeKeyword(Normalized(slug));
  }

  lemma OceanViewNotANameOrSlug(n: string)
    requires n == "ocean-view"
    ensures forall j :: 0 <= j < |RoomTypes| ==> !NameIs(n, RoomTypes[j])
    ensures forall j :: 0 <= j < |RoomTypes| ==> !SlugIs(n, RoomTypes[j])
  {
    forall j | 0 <= j < |RoomTypes| ensures !NameIs(n, RoomTypes[j]) && !SlugIs(n, RoomTypes[j]) {
      TypeNames(j);
    }
  }

  lemma OceanViewSpaced(n: string)
    requires n == "ocean-view"
    ensures ReplaceChar(n, '-', ' ') == "ocean view"
  {
  }

  /** The keyword test fails when the slug lacks a character of the type's hyphenated
      name and the name lacks a character of the spaced slug. */
  lemma KeywordMiss(n: string, t: string, c: char, d: char)
    requires c in RoomSlug(t) && c !in n
    requires d in ReplaceChar(n, '-', ' ') && d !in ToLower(t)
    ensures !Keyword(n, t)
  {
    MissingChar(n, RoomSlug(t), c);
    MissingChar(ToLower(t), ReplaceChar(n, '-', ' '), d);
  }

  /** The keyword test holds when the type's name holds the spaced slug at some index. */
  lemma KeywordByName(n: string, t: string, i: int)
    requires OccursAt(ToLower(t), ReplaceChar(n, '-', ' '), i)
    ensures Keyword(n, t)
  {
  }

  /** The keyword test fails for the `i`th room type by a character of its slug the slug
      lacks and a character of the spaced slug its name lacks. */
  lemma KeywordMissAt(n: string, i: nat, c: char, d: char)
    requires i < |RoomTypes|
    requires c in SlugTypes[i] && c !in n
    requires d in ReplaceChar(n, '-', ' ') && d !in LowerTypes[i]
    ensures !Keyword(n, RoomTypes[i])
  {
    TypeNames(i);
    KeywordMiss(n, RoomTypes[i], c, d);
  }

  /** The characters of 'ocean-view' the misses below rest on. */
  lemma OceanViewChars(n: string)
    requires n == "ocean-view"
    ensures 'd' !in n && 's' !in n
    ensures 'o' in ReplaceChar(n, '-', ' ') && 'c' in ReplaceChar(n, '-', ' ')
  {
    OceanViewSpaced(n);
    assert "ocean view"[0] == 'o' && "ocean view"[1] == 'c';
  }

  /** 'ocean-view' holds none of the first three slugs, and none of their names holds
      'ocean view'. */
  lemma OceanViewMissesStandard(n: string)
    requires n == "ocean-view"
    ensures !Keyword(n, RoomTypes[0])
  {
    OceanViewChars(n);
    assert SlugTypes[0][4] == 'd';
    KeywordMissAt(n, 0, 'd', 'o');
  }

  lemma OceanViewMissesSuperior(n: string)
    requires n == "ocean-view"
    ensures !Keyword(n, RoomTypes[1])
  {
    OceanViewChars(n);
    assert SlugTypes[1][0] == 's';
    KeywordMissAt(n, 1, 's', 'c');
  }

  lemma OceanViewMissesDeluxe(n: string)
    requires n == "ocean-view"
    ensures !Keyword(n, RoomTypes[2])
  {
    OceanViewChars(n);
    assert SlugTypes[2][0] == 'd';
    KeywordMissAt(n, 2, 'd', 'o');
  }

  lemma HoldsOceanView(l: string)
    requires l == "deluxe partial ocean view"
    ensures OccursAt(l, "ocean view", 15)
  {
    assert l[15..25] == "ocean view";
  }

  /** The name Deluxe Partial Ocean View holds 'ocean view'. */
  lemma OceanViewHitsDeluxePartial(n: string)
    requires n == "ocean-view"
    ensures Keyword(n, RoomTypes[3])
  {
    OceanViewSpaced(n);
    TypeNames(3);
    HoldsOceanView(LowerTypes[3]);
    KeywordByName(n, RoomTypes[3], 15);
  }

  /** A slug that normalizes to 'ocean-view' already matches Deluxe Partial Ocean View in
      the keyword stage, because that name holds 'ocean view'; the special table's entry
      for 'ocean-view' (Senior Ocean View) is not reached. */
  lemma OceanViewSelectsDeluxePartial(slug: string)
    requires Normalized(slug) == "ocean-view"
    ensures NormalizeSlugToRoomType(slug) == Some("Deluxe Partial Ocean View")
    ensures SpecialMappings[2] == ("ocean-view", "Senior Ocean View")
  {
    OceanViewStages(Normalized(slug));
  }

  lemma OceanViewStages(n: string)
    requires n == "ocean-view"
    ensures Stages(n) == Some(RoomTypes[3])
  {
    OceanViewNotANameOrSlug(n);
    forall j | 0 <= j < 3 ensures !Keyword(n, RoomTypes[j]) {
      if j == 0 {
        OceanViewMissesStandard(n);
      } else if j == 1 {
        OceanViewMissesSuperior(n);
      } else {
        OceanViewMissesDeluxe(n);
      }
    }
    OceanViewHitsDeluxePartial(n);
    DecidedByKeyword(n, 3);
  }

  lemma BlankNotANameOrSlug(n: string)
    requires n == []
    ensures forall j :: 0 <= j < |RoomTypes| ==> !NameIs(n, RoomTypes[j])
    ensures forall j :: 0 <= j < |RoomTypes| ==> !SlugIs(n, RoomTypes[j])
  {
    forall j | 0 <= j < |RoomTypes| ensures !NameIs(n, RoomTypes[j]) && !SlugIs(n, RoomTypes[j]) {
      TypeNames(j);
    }
  }

  /** A parameter made only of whitespace is truthy, normalizes to the empty string, and
      the empty string is held by every name, so Standard is preselected. */
  lemma BlankSlugSelectsStandard(slug: string)
    requires forall k :: 0 <= k < |slug| ==> IsWhitespace(slug[k])
    ensures NormalizeSlugToRoomType(slug) == Some("Standard")
  {
    ToLowerOfWhitespace(slug);
    var n := Normalized(slug);
    assert n == [];
    BlankNotANameOrSlug(n);
    TypeNames(0);
    KeywordByName(n, RoomTypes[0], 0);
    DecidedByKeyword(n, 0);
  }
}
