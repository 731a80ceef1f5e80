/**
 * inc/Nav_Menus/Social_Nav_Menu.php: in the social menu, each item gets the
 * SVG icon of the first social site whose link pattern occurs in the item's
 * markup, or the generic `chain` icon, inserted after the link text.
 */
module SocialNavMenu {
  import opened Php
  import Dict

  /** The menu location this filter works on. */
  const SocialSlug: string := "social"

  /** The link patterns of get_available_social_icons, in declaration order. */
  function SocialPatterns(): seq<string>
  {
    [
      "behance.net", "codepen.io", "deviantart.com", "digg.com", "docker.com",
      "dribbble.com", "dropbox.com", "mailto:", "facebook.com", "flickr.com",
      "foursquare.com", "github.com", "plus.google.com", "instagram.com", "linkedin.com",
      "medium.com", "pscp.tv", "tel:", "pinterest.com", "getpocket.com",
      "reddit.com", "skype.com", "skype:", "slideshare.net", "snapchat.com",
      "soundcloud.com", "spotify.com", "stumbleupon.com", "tumblr.com", "twitch.tv",
      "twitter.com", "vimeo.com", "vine.co", "vk.com", "wordpress.org",
      "wordpress.com", "yelp.com", "youtube.com"
    ]
  }

  /** The icon of each pattern, in the same order. */
  function SocialIconNames(): seq<string>
  {
    [
      "behance", "codepen", "deviantart", "digg", "dockerhub",
      "dribbble", "dropbox", "email", "facebook", "flickr",
      "foursquare", "github", "google-plus", "instagram", "linkedin",
      "medium", "periscope", "phone", "pinterest", "pocket",
      "reddit", "skype", "skype", "slideshare", "snapchat",
      "soundcloud", "spotify", "stumbleupon", "tumblr", "twitch",
      "twitter", "vimeo", "vine", "vk", "wordpress",
      "wordpress", "yelp", "youtube"
    ]
  }

  /** get_available_social_icons: pattern => icon, in declaration order. */
  function SocialIcons(): (r: Dict.Dict<string>)
    ensures |r| == 38
    ensures forall i :: 0 <= i < 38 ==> r[i] == (SocialPatterns()[i], SocialIconNames()[i])
  {
    seq(38, i requires 0 <= i < 38 => (SocialPatterns()[i], SocialIconNames()[i]))
  }

  /**
   * `skype.com` and `skype:` are the 22nd and 23rd entries and both give the
   * skype icon; `wordpress.org` and `wordpress.com` are the 35th and 36th and
   * both give the wordpress icon.
   */
  lemma SkypeAndWordPressShareIcons()
    ensures SocialIcons()[21] == ("skype.com", "skype") && SocialIcons()[22] == ("skype:", "skype")
    ensures SocialIcons()[34] == ("wordpress.org", "wordpress") && SocialIcons()[35] == ("wordpress.com", "wordpress")
  {
    var patterns, names := SocialPatterns(), SocialIconNames();
    assert patterns[21] == "skype.com" && names[21] == "skype";
    assert patterns[22] == "skype:" && names[22] == "skype";
    assert patterns[34] == "wordpress.org" && names[34] == "wordpress";
    assert patterns[35] == "wordpress.com" && names[35] == "wordpress";
  }

  /** The icon of the first entry, in table order, whose pattern occurs in the markup; `chain` when none does. */
  function IconFor(icons: Dict.Dict<string>, html: string): string
  {
    if icons == [] then "chain"
    else if Contains(html, icons[0].0) then icons[0].1
    else IconFor(icons[1..], html)
  }

  /**
   * The search is first-match: the entry chosen is the first whose pattern
   * occurs anywhere in the markup (not only at its start).
   */
  lemma {:induction false} IconForFirstMatch(icons: Dict.Dict<string>, html: string, i: nat)
    requires i < |icons| && Contains(html, icons[i].0)
    requires forall j :: 0 <= j < i ==> !Contains(html, icons[j].0)
    ensures IconFor(icons, html) == icons[i].1
  {
    if i > 0 {
      assert !Contains(html, icons[0].0);
      assert icons[1..][i - 1] == icons[i];
      IconForFirstMatch(icons[1..], html, i - 1);
    }
  }

  /** An item none of whose patterns occurs gets the `chain` icon. */
  lemma {:induction false} IconForNoMatch(icons: Dict.Dict<string>, html: string)
    requires forall j :: 0 <= j < |icons| ==> !Contains(html, icons[j].0)
    ensures IconFor(icons, html) == "chain"
  {
    if icons != [] {
      assert !Contains(html, icons[0].0);
      assert forall j :: 0 <= j < |icons| - 1 ==> icons[1..][j] == icons[j + 1];
      IconForNoMatch(icons[1..], html);
    }
  }

  /** Whether the menu's `theme_location` argument selects this filter. */
  predicate IsSocialLocation(themeLocation: Value)
  {
    !IsEmpty(themeLocation) && themeLocation == Str(SocialSlug)
  }

  /**
   * filter_social_nav_menu_icons: outside the social location the markup is
   * returned as it is; inside it the icon's markup, from `svg` (standing for
   * get_svg_icon), goes right after every occurrence of `linkAfter`.
   */
  function FilterSocialNavMenuIcons(itemOutput: string, themeLocation: Value, linkAfter: string, svg: string -> string): string
  {
    if IsEmpty(themeLocation) || Str(SocialSlug) != themeLocation then itemOutput
    else StrReplace(linkAfter, linkAfter + svg(IconFor(SocialIcons(), itemOutput)), itemOutput)
  }

  /** Items of other menus, or of a menu without location, are left alone. */
  lemma OtherMenusUnchanged(itemOutput: string, themeLocation: Value, linkAfter: string, svg: string -> string)
    requires !IsSocialLocation(themeLocation)
    ensures FilterSocialNavMenuIcons(itemOutput, themeLocation, linkAfter, svg) == itemOutput
  {
  }

  /**
   * In the social menu the markup grows by one icon per occurrence of
   * `linkAfter`, and stays the same when `linkAfter` is empty or absent.
   */
  lemma IconAfterEachLinkAfter(itemOutput: string, linkAfter: string, svg: string -> string)
    ensures var icon := svg(IconFor(SocialIcons(), itemOutput));
            |FilterSocialNavMenuIcons(itemOutput, Str(SocialSlug), linkAfter, svg)|
            == |itemOutput| + ReplaceCount(linkAfter, itemOutput) * |icon|
    ensures linkAfter == [] || !Contains(itemOutput, linkAfter)
            ==> FilterSocialNavMenuIcons(itemOutput, Str(SocialSlug), linkAfter, svg) == itemOutput
  {
    var icon := svg(IconFor(SocialIcons(), itemOutput));
    StrReplaceLength(linkAfter, linkAfter + icon, itemOutput);
    if linkAfter != [] && !Contains(itemOutput, linkAfter) {
      StrReplaceAbsent(linkAfter, linkAfter + icon, itemOutput);
    }
  }

  /** In the social menu the icon inserted is the one of the first pattern the item contains. */
  lemma SocialItemIcon(itemOutput: string, linkAfter: string, svg: string -> string, i: nat)
    requires i < 38 && Contains(itemOutput, SocialPatterns()[i])
    requires forall j :: 0 <= j < i ==> !Contains(itemOutput, SocialPatterns()[j])
    ensures FilterSocialNavMenuIcons(itemOutput, Str(SocialSlug), linkAfter, svg)
         == StrReplace(linkAfter, linkAfter + svg(SocialIconNames()[i]), itemOutput)
  {
    IconForFirstMatch(SocialIcons(), itemOutput, i);
  }

  /** In the social menu an item that matches no pattern gets the `chain` icon. */
  lemma SocialItemFallback(itemOutput: string, linkAfter: string, svg: string -> string)
    requires forall j :: 0 <= j < 38 ==> !Contains(itemOutput, SocialPatterns()[j])
    ensures FilterSocialNavMenuIcons(itemOutput, Str(SocialSlug), linkAfter, svg)
         == StrReplace(linkAfter, linkAfter + svg("chain"), itemOutput)
  {
    var icons := SocialIcons();
    assert forall j :: 0 <= j < |icons| ==> !Contains(itemOutput, icons[j].0) by {
      forall j | 0 <= j < |icons| ensures !Contains(itemOutput, icons[j].0) {
        assert icons[j].0 == SocialPatterns()[j];
      }
    }
    IconForNoMatch(icons, itemOutput);
  }
}
