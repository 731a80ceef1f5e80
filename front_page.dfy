/**
 * inc/Customizer/Front_Page.php: on the static front page the post header
 * and the post footer can each be hidden by a theme setting.
 */
module FrontPage {
  import opened Php
  import opened Host

  /**
   * The test both filters share: the site shows a static page on the front
   * and that page's ID, cast with (int), is the post's ID.
   */
  predicate IsFrontPage(options: Options, post: Post)
  {
    GetOption(options, "show_on_front") == Str("page") && ToInt(GetOption(options, "page_on_front")) == post.id as int
  }

  /** `! get_theme_mod( $name )`: shown unless the setting is truthy; unset means shown. */
  function NotHidden(mods: Mods, name: string): bool
  {
    !ToBool(GetThemeMod(mods, name, Bool(false)))
  }

  /** filter_wp_rig_showing_post_header. */
  function FilterShowingPostHeader(options: Options, mods: Mods, show: bool, post: Post): (r: bool)
    ensures !IsFrontPage(options, post) ==> r == show
    ensures IsFrontPage(options, post) ==> (r <==> !ToBool(GetThemeMod(mods, "hide_page_on_front_header", Bool(false))))
  {
    if GetOption(options, "show_on_front") != Str("page") || ToInt(GetOption(options, "page_on_front")) != post.id as int then show
    else NotHidden(mods, "hide_page_on_front_header")
  }

  /** filter_wp_rig_showing_post_footer. */
  function FilterShowingPostFooter(options: Options, mods: Mods, show: bool, post: Post): (r: bool)
    ensures !IsFrontPage(options, post) ==> r == show
    ensures IsFrontPage(options, post) ==> (r <==> !ToBool(GetThemeMod(mods, "hide_page_on_front_footer", Bool(false))))
  {
    if GetOption(options, "show_on_front") != Str("page") || ToInt(GetOption(options, "page_on_front")) != post.id as int then show
    else NotHidden(mods, "hide_page_on_front_footer")
  }

  /** On the front page, with neither setting stored, header and footer are both shown. */
  lemma FrontPageShownByDefault(options: Options, mods: Mods, show: bool, post: Post)
    requires IsFrontPage(options, post)
    requires "hide_page_on_front_header" !in mods && "hide_page_on_front_footer" !in mods
    ensures FilterShowingPostHeader(options, mods, show, post)
    ensures FilterShowingPostFooter(options, mods, show, post)
  {
  }

  /**
   * The header's result does not depend on the footer setting, nor the
   * footer's on the header setting.
   */
  lemma HeaderAndFooterIndependent(options: Options, mods: Mods, show: bool, post: Post, v: Value)
    ensures FilterShowingPostHeader(options, mods["hide_page_on_front_footer" := v], show, post)
         == FilterShowingPostHeader(options, mods, show, post)
    ensures FilterShowingPostFooter(options, mods["hide_page_on_front_header" := v], show, post)
         == FilterShowingPostFooter(options, mods, show, post)
  {
    assert GetThemeMod(mods["hide_page_on_front_footer" := v], "hide_page_on_front_header", Bool(false))
        == GetThemeMod(mods, "hide_page_on_front_header", Bool(false));
    assert GetThemeMod(mods["hide_page_on_front_header" := v], "hide_page_on_front_footer", Bool(false))
        == GetThemeMod(mods, "hide_page_on_front_footer", Bool(false));
  }

  /**
   * Off the front page, and on a site that does not show a static front
   * page, neither filter changes anything, whatever the settings say.
   */
  lemma OtherPagesUnchanged(options: Options, mods: Mods, show: bool, post: Post)
    requires GetOption(options, "show_on_front") != Str("page") || ToInt(GetOption(options, "page_on_front")) != post.id as int
    ensures FilterShowingPostHeader(options, mods, show, post) == show
    ensures FilterShowingPostFooter(options, mods, show, post) == show
  {
  }

  /** The front page ID is compared after the (int) cast: a stored "12" matches post 12. */
  lemma FrontPageIdCast(options: Options, post: Post)
    requires GetOption(options, "show_on_front") == Str("page")
    requires GetOption(options, "page_on_front") == Str(IntToDecimal(post.id as int))
    ensures IsFrontPage(options, post)
  {
    DecimalRoundTrip(post.id as int);
  }

  /**
   * An ID too large for an int, but within the double range, casts to
   * PHP_INT_MAX, so a stored front page ID beyond it selects the post whose
   * ID is PHP_INT_MAX.
   */
  lemma FrontPageIdSaturates(options: Options, post: Post, d: string)
    requires GetOption(options, "show_on_front") == Str("page")
    requires GetOption(options, "page_on_front") == Str(d)
    requires AllDigits(d) && d != [] && IntMax < DigitsValue(d) < DoubleOverflow
    ensures IsFrontPage(options, post) <==> post.id as int == IntMax
  {
    SaturatingCast(d, []);
    assert d + [] == d;
  }

  /**
   * An ID beyond the double range casts to 0, so it matches only a post
   * whose ID is 0.
   */
  lemma FrontPageIdOverflow(options: Options, post: Post, d: string)
    requires GetOption(options, "show_on_front") == Str("page")
    requires GetOption(options, "page_on_front") == Str(d)
    requires AllDigits(d) && d != [] && DigitsValue(d) >= DoubleOverflow
    ensures IsFrontPage(options, post) <==> post.id as int == 0
  {
    OverflowingCast(d, []);
    assert d + [] == d;
  }
}
