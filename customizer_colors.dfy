/**
 * inc/Customizer/Colors.php: the colour settings of the Customizer, their
 * `:root{...}` printer (with the host's custom background replacing the
 * component's own background colour), the editor-palette filter and the
 * selective-refresh settings list.
 */
module CustomizerColors {
  import opened Php
  import opened Host
  import Css
  import opened ColorSettings

  /** The base colours before the custom-background shift. */
  function BaseColorTable(): seq<ColorData>
  {
    [
      ColorData("global_background_color", "global-background-color", "#ffffff"),
      ColorData("global_background_color_alt", "global-background-color-alt", "#eeeeee"),
      ColorData("global_font_color", "global-font-color", "#333333"),
      ColorData("color_link", "color-link", "#0073aa"),
      ColorData("color_link_visited", "color-link-visited", "#333333"),
      ColorData("color_link_active", "color-link-active", "#00a0d2"),
      ColorData("branding_font_color", "branding-font-color", "#333333"),
      ColorData("highlight_font_color", "highlight-font-color", "#333333"),
      ColorData("global_border_color", "global-border-color", "#cccccc")
    ]
  }

  /**
   * get_base_colors: with custom-background support the first colour, the
   * component's own background, is shifted off.
   */
  function GetBaseColors(supportsBackground: bool): (r: seq<ColorData>)
    ensures |r| == if supportsBackground then 8 else 9
    ensures forall i :: 0 <= i < |r| ==> r[i] == BaseColorTable()[i + if supportsBackground then 1 else 0]
    ensures (exists i :: 0 <= i < |r| && r[i].setting == "global_background_color") <==> !supportsBackground
  {
    var table := BaseColorTable();
    assert table[0].setting == "global_background_color";
    if supportsBackground then table[1..] else table
  }

  function CustomThemeColors(): seq<ColorData>
  {
    [
      ColorData("color_theme_primary", "color-theme-primary", "#e36d60"),
      ColorData("color_theme_secondary", "color-theme-secondary", "#41848f"),
      ColorData("color_theme_red", "color-theme-red", "#c0392b"),
      ColorData("color_theme_green", "color-theme-green", "#27ae60"),
      ColorData("color_theme_blue", "color-theme-blue", "#2980b9"),
      ColorData("color_theme_yellow", "color-theme-yellow", "#f1c40f"),
      ColorData("color_theme_black", "color-theme-black", "#1c2833"),
      ColorData("color_theme_grey", "color-theme-grey", "#95a5a6"),
      ColorData("color_theme_white", "color-theme-white", "#ecf0f1")
    ]
  }

  /** The slugs the palette filter derives from the custom theme colours. */
  function ThemeSlugs(): seq<string>
  {
    ["theme-primary", "theme-secondary", "theme-red", "theme-green", "theme-blue",
     "theme-yellow", "theme-black", "theme-grey", "theme-white"]
  }

  /** Removing `color-` from one custom colour's CSS property gives its `theme-*` slug. */
  lemma CustomSlugAt(i: nat)
    requires i < 9
    ensures |CustomThemeColors()| == |ThemeSlugs()| == 9
    ensures Slug(CustomThemeColors()[i]) == ThemeSlugs()[i]
  {
    CustomPropertyAt(i);
    ThemeSlugLacksPrefix(i);
    SlugOfPrefixed(CustomThemeColors()[i], ThemeSlugs()[i]);
  }

  /** The CSS property of a custom colour is `color-` and its slug. */
  lemma CustomPropertyAt(i: nat)
    requires i < 9
    ensures |CustomThemeColors()| == |ThemeSlugs()| == 9
    ensures CustomThemeColors()[i].cssProperty == "color-" + ThemeSlugs()[i]
  {
    var c, t := CustomThemeColors()[i], ThemeSlugs()[i];
    assert c.cssProperty == "color-" + t;
  }

  /** No `theme-*` slug contains `color-`: each lacks one of its letters. */
  lemma ThemeSlugLacksPrefix(i: nat)
    requires i < 9
    ensures |ThemeSlugs()| == 9
    ensures !Contains(ThemeSlugs()[i], "color-")
  {
    var t := ThemeSlugs()[i];
    var missing := if i == 1 then 'l' else if i == 6 then 'o' else 'c';
    assert missing !in t;
    MissingCharNotContained(t, "color-", missing);
  }

  /** Every custom colour's slug is the matching `theme-*` name. */
  lemma CustomSlugs()
    ensures |CustomThemeColors()| == |ThemeSlugs()| == 9
    ensures forall i :: 0 <= i < 9 ==> Slug(CustomThemeColors()[i]) == ThemeSlugs()[i]
  {
    forall i | 0 <= i < 9 ensures Slug(CustomThemeColors()[i]) == ThemeSlugs()[i] {
      CustomSlugAt(i);
    }
  }

  /** array_merge( get_base_colors(), get_custom_theme_colors() ). */
  function AllColors(supportsBackground: bool): seq<ColorData>
  {
    GetBaseColors(supportsBackground) + CustomThemeColors()
  }

  /** The first declaration, printed from the host's background colour when it replaces the component's own. */
  function BackgroundPairs(supportsBackground: bool, background: string, esc: string -> string): seq<(string, string)>
  {
    if supportsBackground && ToBool(Str(background)) then [("global-background-color", "#" + esc(background))] else []
  }

  /** The background declaration as text: one declaration or nothing. */
  lemma BackgroundDecls(supportsBackground: bool, background: string, esc: string -> string)
    ensures Css.Decls(BackgroundPairs(supportsBackground, background, esc))
         == if supportsBackground && ToBool(Str(background)) then "--global-background-color:#" + esc(background) + ";" else ""
  {
    if supportsBackground && ToBool(Str(background)) {
      Css.DeclsSingle(("global-background-color", "#" + esc(background)));
    }
  }

  /** What print_css_custom_properties_colors prints. */
  function ColorsCss(mods: Mods, supportsBackground: bool, background: string, esc: string -> string): string
  {
    Css.Root(Css.Decls(BackgroundPairs(supportsBackground, background, esc))
             + Css.Decls(ColorPairs(AllColors(supportsBackground), mods, esc)))
  }

  /**
   * print_css_custom_properties_colors; `supportsBackground` stands for
   * current_theme_supports( 'custom-background' ), `background` for
   * get_background_color() and `esc` for esc_attr.
   */
  method PrintCssCustomPropertiesColors(mods: Mods, supportsBackground: bool, background: string, esc: string -> string)
    returns (out: string)
    ensures out == ColorsCss(mods, supportsBackground, background, esc)
  {
    var colors := GetBaseColors(supportsBackground) + CustomThemeColors();
    out := ":root{";
    if supportsBackground && ToBool(Str(background)) {
      out := out + "--global-background-color:#" + esc(background) + ";";
    }
    ghost var bg := Css.Decls(BackgroundPairs(supportsBackground, background, esc));
    assert out == ":root{" + bg by {
      BackgroundDecls(supportsBackground, background, esc);
    }
    var decls := EmitColorDeclarations(colors, mods, esc);
    out := out + decls + "}";
    Css.RootAppend(bg, decls);
  }

  /**
   * The printed block reads back as the background declaration (when the
   * host's background replaces the component's and is non-empty) followed by
   * one declaration per base and custom colour, in table order, each holding
   * the escaped stored value or default.
   */
  lemma ColorsCssDeclarations(mods: Mods, supportsBackground: bool, background: string, esc: string -> string)
    requires forall i :: 0 <= i < |BackgroundPairs(supportsBackground, background, esc)| ==>
               Css.Clean(BackgroundPairs(supportsBackground, background, esc)[i])
    requires forall i :: 0 <= i < |ColorPairs(AllColors(supportsBackground), mods, esc)| ==>
               Css.Clean(ColorPairs(AllColors(supportsBackground), mods, esc)[i])
    ensures Css.ParseRoot(ColorsCss(mods, supportsBackground, background, esc))
         == Some(BackgroundPairs(supportsBackground, background, esc) + ColorPairs(AllColors(supportsBackground), mods, esc))
    ensures |BackgroundPairs(supportsBackground, background, esc) + ColorPairs(AllColors(supportsBackground), mods, esc)|
         == if supportsBackground && ToBool(Str(background)) then 18 else if supportsBackground then 17 else 18
  {
    var bg := BackgroundPairs(supportsBackground, background, esc);
    var pairs := ColorPairs(AllColors(supportsBackground), mods, esc);
    assert Css.Decls(bg) + Css.Decls(pairs) == Css.Decls(bg + pairs) by {
      if bg != [] {
        assert (bg + pairs)[1..] == pairs;
      } else {
        assert bg + pairs == pairs;
      }
    }
    Css.ParseRootRoundTrip(bg + pairs);
  }

  /**
   * With custom-background support and a non-empty host background, the
   * block opens with `--global-background-color:#<background>;`, whatever the
   * escaper makes of the other values.
   */
  lemma BackgroundFirst(mods: Mods, background: string, esc: string -> string)
    requires ToBool(Str(background))
    ensures var prefix := ":root{" + Css.Decl("global-background-color", "#" + esc(background));
            |prefix| <= |ColorsCss(mods, true, background, esc)|
            && ColorsCss(mods, true, background, esc)[..|prefix|] == prefix
  {
    var decls := Css.Decls(ColorPairs(AllColors(true), mods, esc));
    var bg := BackgroundPairs(true, background, esc);
    assert bg == [("global-background-color", "#" + esc(background))];
    assert Css.Decls(bg) == Css.Decl("global-background-color", "#" + esc(background)) by {
      assert bg[1..] == [];
    }
    Css.RootStartsWith(Css.Decls(bg), decls);
  }

  /** The settings of the colour partial. */
  function PartialSettingsList(supportsBackground: bool): seq<string>
  {
    (if supportsBackground then ["background_color"] else []) + Settings(AllColors(supportsBackground))
  }

  /** The settings list built in action_customize_register for the colour partial. */
  method PartialSettings(supportsBackground: bool) returns (settings: seq<string>)
    ensures settings == PartialSettingsList(supportsBackground)
  {
    var colors := GetBaseColors(supportsBackground) + CustomThemeColors();
    var initial: seq<string> := [];
    if supportsBackground {
      initial := initial + ["background_color"];
    }
    settings := CollectSettings(initial, colors);
  }

  /**
   * The partial always watches 18 settings: with custom-background support
   * the host's `background_color` comes first and the component's own
   * `global_background_color` is not among them; without it the reverse.
   */
  lemma PartialSettingsShape(supportsBackground: bool)
    ensures |PartialSettingsList(supportsBackground)| == 18
    ensures PartialSettingsList(supportsBackground)[0]
         == if supportsBackground then "background_color" else "global_background_color"
    ensures supportsBackground ==> forall i :: 0 <= i < 18 ==> PartialSettingsList(supportsBackground)[i] != "global_background_color"
  {
    var list := PartialSettingsList(supportsBackground);
    var colors := AllColors(supportsBackground);
    if supportsBackground {
      forall i | 0 <= i < 18 ensures list[i] != "global_background_color" {
        if i > 0 {
          assert list[i] == colors[i - 1].setting;
          if i - 1 >= 8 {
            assert colors[i - 1] == CustomThemeColors()[i - 9];
          }
        }
      }
    }
  }
}
