/**
 * inc/Post_Content/Component.php: the template tags that decide whether the
 * post header, the post footer, a meta field or a taxonomy's terms are shown.
 * Each resolves the post, then runs its filter chain seeded with `true` and
 * casts the result to bool.
 */
module PostContent {
  import opened Php
  import opened Host
  import FrontPage
  import PostContentToggles

  /** showing_post_header; `post` is what get_post() resolves, if anything. */
  function ShowingPostHeader(post: Option<Post>, chain: seq<(Value, Post) -> Value>): (r: bool)
    ensures post.None? ==> !r
    ensures post.Some? && chain == [] ==> r
  {
    if post.None? then false else ToBool(ApplyFilters(chain, Bool(true), post.value))
  }

  /** showing_post_footer. */
  function ShowingPostFooter(post: Option<Post>, chain: seq<(Value, Post) -> Value>): (r: bool)
    ensures post.None? ==> !r
    ensures post.Some? && chain == [] ==> r
  {
    if post.None? then false else ToBool(ApplyFilters(chain, Bool(true), post.value))
  }

  /** showing_post_meta; the callbacks receive the field name and the post. */
  function ShowingPostMeta(field: string, post: Option<Post>, chain: seq<(Value, (string, Post)) -> Value>): (r: bool)
    ensures post.None? ==> !r
    ensures post.Some? && chain == [] ==> r
  {
    if post.None? then false else ToBool(ApplyFilters(chain, Bool(true), (field, post.value)))
  }

  /** showing_post_taxonomy_terms; the callbacks receive the taxonomy and the post. */
  function ShowingPostTaxonomyTerms(taxonomy: string, post: Option<Post>, chain: seq<(Value, (string, Post)) -> Value>): (r: bool)
    ensures post.None? ==> !r
    ensures post.Some? && chain == [] ==> r
  {
    if post.None? then false else ToBool(ApplyFilters(chain, Bool(true), (taxonomy, post.value)))
  }

  /**
   * The meta-toggle filter as a callback of the chain: its `bool $show`
   * parameter coerces the scalar it is given to bool. PHP refuses a null
   * there with a TypeError; the model casts it to false like the rest.
   */
  function MetaToggleCallback(features: PostContentToggles.PostTypeFeatures, mods: Mods, multiAuthor: bool): (Value, (string, Post)) -> Value
  {
    (v: Value, a: (string, Post)) =>
      Bool(PostContentToggles.ShowingPostMeta(ToBool(v), a.0, a.1.postType, features, mods, multiAuthor))
  }

  /** The taxonomy-toggle filter as a callback of the chain. */
  function TermsToggleCallback(mods: Mods): (Value, (string, Post)) -> Value
  {
    (v: Value, a: (string, Post)) => Bool(PostContentToggles.ShowingPostTaxonomyTerms(ToBool(v), a.0, a.1.postType, mods))
  }

  /** The front-page header filter as a callback of the chain. */
  function FrontPageHeaderCallback(options: Options, mods: Mods): (Value, Post) -> Value
  {
    (v: Value, p: Post) => Bool(FrontPage.FilterShowingPostHeader(options, mods, ToBool(v), p))
  }

  /** The front-page footer filter as a callback of the chain. */
  function FrontPageFooterCallback(options: Options, mods: Mods): (Value, Post) -> Value
  {
    (v: Value, p: Post) => Bool(FrontPage.FilterShowingPostFooter(options, mods, ToBool(v), p))
  }

  /**
   * With the meta toggle as the only filter, showing_post_meta is the toggle
   * applied to `true`: in particular an unset field the post type does not
   * list is shown.
   */
  lemma MetaWithToggle(field: string, post: Post, features: PostContentToggles.PostTypeFeatures, mods: Mods, multiAuthor: bool)
    ensures ShowingPostMeta(field, Some(post), [MetaToggleCallback(features, mods, multiAuthor)])
         == PostContentToggles.ShowingPostMeta(true, field, post.postType, features, mods, multiAuthor)
    ensures ToBool(Str(post.postType)) && PostContentToggles.MetaSetting(post.postType, field) !in mods
            && field != "date" && field != "author"
            ==> ShowingPostMeta(field, Some(post), [MetaToggleCallback(features, mods, multiAuthor)])
  {
    var f := MetaToggleCallback(features, mods, multiAuthor);
    var chain := [f];
    assert chain[1..] == [];
    assert ApplyFilters(chain, Bool(true), (field, post)) == f(Bool(true), (field, post));
    assert f(Bool(true), (field, post))
        == Bool(PostContentToggles.ShowingPostMeta(ToBool(Bool(true)), field, post.postType, features, mods, multiAuthor));
    if ToBool(Str(post.postType)) && PostContentToggles.MetaSetting(post.postType, field) !in mods
       && field != "date" && field != "author" {
      PostContentToggles.OtherFieldKeepsShow(true, field, post.postType, features, mods, multiAuthor);
    }
  }

  /** With the terms toggle as the only filter, an unset toggle shows the terms. */
  lemma TermsWithToggle(taxonomy: string, post: Post, mods: Mods)
    ensures ShowingPostTaxonomyTerms(taxonomy, Some(post), [TermsToggleCallback(mods)])
         == PostContentToggles.ShowingPostTaxonomyTerms(true, taxonomy, post.postType, mods)
    ensures ToBool(Str(post.postType)) && PostContentToggles.TermsSetting(post.postType, taxonomy) !in mods
            ==> ShowingPostTaxonomyTerms(taxonomy, Some(post), [TermsToggleCallback(mods)])
  {
    var chain := [TermsToggleCallback(mods)];
    assert chain[1..] == [];
    assert ApplyFilters(chain, Bool(true), (taxonomy, post)) == chain[0](Bool(true), (taxonomy, post));
    assert chain[0](Bool(true), (taxonomy, post))
        == Bool(PostContentToggles.ShowingPostTaxonomyTerms(true, taxonomy, post.postType, mods));
  }

  /**
   * With the front-page filters as the only filters, header and footer are
   * shown everywhere except on the static front page, where each follows
   * its own hide setting.
   */
  lemma HeaderFooterWithFrontPage(options: Options, mods: Mods, post: Post)
    ensures ShowingPostHeader(Some(post), [FrontPageHeaderCallback(options, mods)])
        <==> !FrontPage.IsFrontPage(options, post) || FrontPage.NotHidden(mods, "hide_page_on_front_header")
    ensures ShowingPostFooter(Some(post), [FrontPageFooterCallback(options, mods)])
        <==> !FrontPage.IsFrontPage(options, post) || FrontPage.NotHidden(mods, "hide_page_on_front_footer")
  {
    var h, f := FrontPageHeaderCallback(options, mods), FrontPageFooterCallback(options, mods);
    var header, footer := [h], [f];
    assert header[1..] == [] && footer[1..] == [];
    assert ApplyFilters(header, Bool(true), post) == h(Bool(true), post);
    assert h(Bool(true), post) == Bool(FrontPage.FilterShowingPostHeader(options, mods, ToBool(Bool(true)), post));
    assert ApplyFilters(footer, Bool(true), post) == f(Bool(true), post);
    assert f(Bool(true), post) == Bool(FrontPage.FilterShowingPostFooter(options, mods, ToBool(Bool(true)), post));
  }
}
