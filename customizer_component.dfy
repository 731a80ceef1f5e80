/**
 * inc/Customizer/Component.php: the older Customizer component with its own
 * (shorter) colour tables, the same editor-palette filter, the
 * `:root{...}` printer and the selective-refresh settings list.
 */
module CustomizerComponent {
  import opened Php
  import opened Host
  import Css
  import opened ColorSettings
  import CustomizerColors

  function BaseColors(): seq<ColorData>
  {
    [
      ColorData("global_font_color", "global-font-color", "#333333"),
      ColorData("color_link", "color-link", "#0073aa"),
      ColorData("color_link_visited", "color-link-visited", "#333333"),
      ColorData("color_link_active", "color-link-active", "#00a0d2")
    ]
  }

  function CustomThemeColors(): seq<ColorData>
  {
    [
      ColorData("color_theme_primary", "color-theme-primary", "#e36d60"),
      ColorData("color_theme_secondary", "color-theme-secondary", "#41848f"),
      ColorData("color_theme_red", "color-theme-red", "#c0392b"),
      ColorData("color_theme_green", "color-theme-green", "#27ae60"),
      ColorData("color_theme_blue", "color-theme-blue", "#2980b9"),
      ColorData("color_theme_yellow", "color-theme-yellow", "#f1c40f"),
      ColorData("color_theme_black", "color-theme-black", "#1c2833"),
      ColorData("color_theme_grey", "color-theme-grey", "#95a5a6"),
      ColorData("color_theme_white", "color-theme-white", "#ecf0f1")
    ]
  }

  function AllColors(): seq<ColorData>
  {
    BaseColors() + CustomThemeColors()
  }

  /**
   * Both components register a palette filter over the same custom theme
   * colours, so with both hooked the palette comes out as with one: each
   * filter assigns the same values, and assigning them again changes nothing.
   */
  lemma BothPaletteFiltersAsOne(mods: Mods, palette: seq<PaletteEntry>)
    ensures CustomThemeColors() == CustomizerColors.CustomThemeColors()
    ensures var chain: seq<(seq<PaletteEntry>, ()) -> seq<PaletteEntry>> :=
              [(p, u) => OverriddenPalette(CustomizerColors.CustomThemeColors(), mods, p),
               (p, u) => OverriddenPalette(CustomThemeColors(), mods, p)];
            ApplyFilters(chain, palette, ()) == OverriddenPalette(CustomThemeColors(), mods, palette)
  {
    var chain: seq<(seq<PaletteEntry>, ()) -> seq<PaletteEntry>> :=
      [(p, u) => OverriddenPalette(CustomizerColors.CustomThemeColors(), mods, p),
       (p, u) => OverriddenPalette(CustomThemeColors(), mods, p)];
    var once := OverriddenPalette(CustomThemeColors(), mods, palette);
    OverrideIdempotent(CustomThemeColors(), mods, palette);
    assert chain[1..][1..] == [];
    calc {
      ApplyFilters(chain, palette, ());
      ApplyFilters(chain[1..], chain[0](palette, ()), ());
      ApplyFilters(chain[1..][1..], chain[1](once, ()), ());
      OverriddenPalette(CustomThemeColors(), mods, once);
    }
  }

  /** What print_css_custom_properties prints. */
  function CustomPropertiesCss(mods: Mods, esc: string -> string): string
  {
    Css.Root(Css.Decls(ColorPairs(AllColors(), mods, esc)))
  }

  /** print_css_custom_properties; `esc` stands for esc_attr. */
  method PrintCssCustomProperties(mods: Mods, esc: string -> string) returns (out: string)
    ensures out == CustomPropertiesCss(mods, esc)
  {
    var colors := BaseColors() + CustomThemeColors();
    var decls := EmitColorDeclarations(colors, mods, esc);
    out := ":root{" + decls + "}";
  }

  /**
   * The block reads back as thirteen declarations, one per base and custom
   * colour in table order, each with the escaped stored value or default.
   */
  lemma CustomPropertiesDeclarations(mods: Mods, esc: string -> string)
    requires forall i :: 0 <= i < |ColorPairs(AllColors(), mods, esc)| ==> Css.Clean(ColorPairs(AllColors(), mods, esc)[i])
    ensures Css.ParseRoot(CustomPropertiesCss(mods, esc)) == Some(ColorPairs(AllColors(), mods, esc))
    ensures |ColorPairs(AllColors(), mods, esc)| == 13
  {
    Css.ParseRootRoundTrip(ColorPairs(AllColors(), mods, esc));
  }

  /** The settings list built in customize_register_color_settings for the colour partial. */
  method PartialSettings() returns (settings: seq<string>)
    ensures settings == Settings(AllColors())
  {
    var colors := BaseColors() + CustomThemeColors();
    settings := CollectSettings([], colors);
  }

  /** The thirteen colour settings are distinct, so the partial watches each once. */
  lemma PartialSettingsDistinct()
    ensures |Settings(AllColors())| == 13
    ensures DistinctSettings(AllColors())
  {
    CustomSettingsDistinct();
    BaseSettingsApart();
    DistinctAppend(BaseColors(), CustomThemeColors());
  }

  /** The nine custom settings differ pairwise. */
  lemma CustomSettingsDistinct()
    ensures DistinctSettings(CustomThemeColors())
  {
  }

  /** The four base settings differ pairwise and from every custom setting. */
  lemma BaseSettingsApart()
    ensures DistinctSettings(BaseColors())
    ensures forall i, j :: 0 <= i < |BaseColors()| && 0 <= j < |CustomThemeColors()|
              ==> BaseColors()[i].setting != CustomThemeColors()[j].setting
  {
  }
}
