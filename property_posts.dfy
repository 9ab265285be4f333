/** The property posts block: a post is shown in the active locale only, through the
    translation written for exactly that locale. */
module PropertyPosts {
  import opened Seqs

  /** One translation of a post. */
  datatype PostTranslation = PostTranslation(postId: nat, locale: string, title: string, content: string)

  /** A post with its translations; a post without a `translations` field has none. */
  datatype PropertyPost = PropertyPost(id: nat, translations: seq<PostTranslation>)

  predicate InLocale(locale: string, t: PostTranslation) {
    t.locale == locale
  }

  function LocaleIs(locale: string): PostTranslation -> bool {
    (t: PostTranslation) => InLocale(locale, t)
  }

  /** `getPostTranslation(post, locale)`: the first translation whose locale is exactly
      the active one, or null; there is no fallback to another locale. */
  function GetPostTranslation(post: PropertyPost, locale: string): (r: Option<PostTranslation>)
    ensures post.translations == [] ==> r.None?
    ensures r.None? <==> forall i :: 0 <= i < |post.translations| ==> post.translations[i].locale != locale
    ensures r.Some? ==> exists i :: 0 <= i < |post.translations| && r.value == post.translations[i]
                                    && r.value.locale == locale
                                    && forall j :: 0 <= j < i ==> post.translations[j].locale != locale
  {
    if post.translations == [] then None
    else
      match FindIndex(post.translations, LocaleIs(locale))
      case None => None
      case Some(k) => Some(post.translations[k])
  }

  predicate HasTranslation(locale: string, post: PropertyPost) {
    var t := GetPostTranslation(post, locale);
    t.Some? && t.value.locale == locale
  }

  function Shown(locale: string): PropertyPost -> bool {
    (post: PropertyPost) => HasTranslation(locale, post)
  }

  /** `filteredPosts`: the posts that have a translation in the active locale, in their
      original order. */
  function FilteredPosts(posts: seq<PropertyPost>, locale: string): (r: seq<PropertyPost>)
    ensures |r| <= |posts|
    ensures forall i :: 0 <= i < |r| ==> r[i] in posts && GetPostTranslation(r[i], locale).Some?
    ensures forall i :: 0 <= i < |posts| ==>
              (exists j :: 0 <= j < |posts[i].translations| && posts[i].translations[j].locale == locale)
              ==> posts[i] in r
  {
    Filter(posts, Shown(locale))
  }

  /** The filter keeps the order of the posts: it distributes over concatenation. */
  lemma FilteredPostsKeepOrder(a: seq<PropertyPost>, b: seq<PropertyPost>, locale: string)
    ensures FilteredPosts(a + b, locale) == FilteredPosts(a, locale) + FilteredPosts(b, locale)
  {
    FilterConcat(a, b, Shown(locale));
  }

  /** Filtering the shown posts again changes nothing. */
  lemma FilteredPostsIdempotent(posts: seq<PropertyPost>, locale: string)
    ensures FilteredPosts(FilteredPosts(posts, locale), locale) == FilteredPosts(posts, locale)
  {
    FilterAll(FilteredPosts(posts, locale), Shown(locale));
  }

  /** A post written only in other locales is not shown, whatever those locales are. */
  lemma NoFallback(post: PropertyPost, locale: string)
    requires forall j :: 0 <= j < |post.translations| ==> post.translations[j].locale != locale
    ensures FilteredPosts([post], locale) == []
  {
  }
}
