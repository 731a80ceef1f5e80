# WP Rig theme components in Dafny

This project models the rule-bearing core of a WP Rig based WordPress theme.
The PHP classes under `inc/` attach callbacks to the host's hooks. Beneath
that glue sit small deterministic rules, and the model states and proves them.
The host's lookups are treated as oracles:

- the stored theme settings (`get_theme_mod`);
- the site options (`get_option`);
- the filter chains of `apply_filters`;
- `is_active_sidebar`, `has_nav_menu` and the Block Areas plugin;
- the escaping helpers, `get_svg_icon` and `wp_json_encode`.

The components modelled:

- **Fonts** (`CustomizerFonts`). The three font settings, the system and Google
  font tables, and the Google-font selection filter. Also the quoting of family
  names and the `:root{...}` printer of the font custom properties.
- **Colours** (`CustomizerColors`, `CustomizerComponent`, shared parts in
  `ColorSettings`). The base and custom colour tables and the editor-palette
  filter. Also the `:root{...}` colour printers and the selective-refresh
  settings lists. This covers both the `Colors` Customizer class and the older
  Customizer `Component`.
- **Content width** (`ContentWidth`). The width custom property and the block
  editor style that carries it.
- **Front page** (`FrontPage`). Hiding the post header or footer on the static
  front page.
- **Post content toggles** (`PostContentToggles`). The per post type meta and
  taxonomy switches. **Post content** (`PostContent`): the `showing_post_*`
  template tags that seed those filter chains.
- **Navigation menus** (`NavMenus`, `SocialNavMenu`). The primary-menu dropdown
  symbol and the argument defaults of the three menus. Also the social-menu
  icon lookup.
- **Footer** (`FooterInfo`, `FooterWidgetAreas`). The footer info message with
  its default and fallback, and the four footer widget columns.
- **Block areas** (`BlockAreas`). The plugin guards and the stylesheet filter.
- **Editor** (`Editor`). The palette and font sizes the theme declares, and the
  block style variation script.

PHP behaviour the rules depend on is written out in `Php`:

- truthiness, where `''` and `'0'` are false;
- `empty`;
- the `(int)` cast of strings and the string conversions;
- the key conversion of array offsets;
- `strpos`, `str_replace` and `implode`.

PHP's ordered arrays are `Dict`, a sequence of key/value pairs. `Css` is the
`--property:value;` declaration format and the `:root{...}` block, with a
parser as its partner (`Css.ParseRootRoundTrip`).

Where the code loops and updates variables, the model is a `method` with its
loop. Each such method is proved equal to a specification function, and lemmas
state what the theme promises about that function. Printers that `echo` are
methods that return the text they would print.

The theme validates no stored value itself. `sanitize_hex_color` and `absint`
are only named as sanitize callbacks for the host to run
(inc/Customizer/Colors.php:83, inc/Customizer/Content_Width.php:67). The 32 to
70 range of the content width is set only on its Customizer control
(inc/Customizer/Content_Width.php:79-80). The printer uses whatever width is
stored: `ContentWidth.WidthUnclamped` states that any non-zero width is used as
it is. A stored digit string too large for a PHP int is read by PHP as a
double and capped: `ContentWidth.WidthSaturates` states that one within the
double range is printed as `PHP_INT_MAX`, and `ContentWidth.WidthOverflowFallsBack`
that one beyond it, whose double is infinite, casts to 0 and is printed as 45.

## Model

| member | source | states |
|---|---|---|
| Host.ApplyFiltersAppend | inc/Post_Content/Component.php:77 | Running two filter chains one after the other is the same as running their concatenation. |
| Host.GetThemeMod | inc/Customizer/Content_Width.php:103 | The stored setting when it is present and not null, otherwise the default passed in. Its partner rows are `ContentWidth.WidthDefault` and `FrontPage.FrontPageShownByDefault`. |
| Host.GetOption | inc/Customizer/Front_Page.php:41 | The stored option, or `false` when there is none; `FrontPage.IsFrontPage` reads both front-page options through it. |
| Host.ApplyFilters | inc/Post_Content/Component.php:77 | Each callback of the chain receives the previous one's result, the first one the seed; `Host.ApplyFiltersAppend` states how chains compose. |
| Css.ParseRootRoundTrip | inc/Customizer/Fonts.php:153-163 | A `:root{...}` block built from clean (property, value) pairs parses back to exactly those pairs, in order. This is the partner of every printer. |
| Dict.Put | inc/Customizer/Colors.php:41 | Assigning an array element sets that key's value and leaves every other key's lookup as it was. Keys stay unique. |
| Dict.Get | inc/Customizer/Colors.php:50 | `$a[$k]`: the value of the first entry with that key, present exactly when the key is; `Dict.GetAt` and the `Dict.Put`/`Dict.Merge` rows state its other lookups. |
| Dict.IsSet | inc/Customizer/Colors.php:46 | `isset( $a[$k] )`: the key is present and its value is not null; `ColorSettings.OverriddenPalette` states the override it guards. |
| Dict.Merge | inc/Customizer/Fonts.php:151 | `array_merge` of string-keyed arrays: a key of the second array takes the second's value, and any other key keeps the first's. |
| Dict.Unset | inc/Block_Areas/Component.php:73 | `unset` removes the key and leaves every other key's lookup as it was. |
| Php.DecimalRoundTrip | inc/Customizer/Content_Width.php:103 | The `(int)` cast of a 64-bit integer's decimal string gives back that integer. |
| Php.ToBool | inc/Post_Content/Component.php:77 | `(bool)`: null, `false`, 0, `''` and `'0'` are false, every other scalar is true; `PostContentToggles.NoPostTypeHidesMeta` and `FooterInfo.DefaultFooterInfoNotEmpty` use it. |
| Php.ToInt | inc/Customizer/Content_Width.php:103 | `(int)`: the result is always a 64-bit int; strings go through `Php.CapToInt`, whose row and `Php.DecimalRoundTrip` state the string cases. |
| Php.ToStr | inc/Customizer/Footer_Info.php:36 | `(string)`: null and `false` give `''`, `true` gives `'1'`, an int its decimal form; `Php.DecimalRoundTrip` is its partner with `Php.ToInt`. |
| Php.KeyOf | inc/Customizer/Fonts.php:47 | The array key a scalar indexes: null gives `''`, a bool `'0'` or `'1'`, an int its decimal form; `CustomizerFonts.SelectedFamilies` states the selection through it. |
| Php.CapToInt | inc/Customizer/Content_Width.php:103 | A numeric prefix that fits an int is kept; beyond the int range but within the double range it saturates at `PHP_INT_MAX` or `PHP_INT_MIN`; from the least value that rounds to an infinite double, (2^54 - 1) * 2^970, outward it gives 0. |
| Php.SaturatingCast | inc/Customizer/Content_Width.php:103 | The `(int)` cast of a digit string beyond the 64-bit range but within the double range gives `PHP_INT_MAX`, and with a leading `-` gives `PHP_INT_MIN`. |
| Php.OverflowingCast | inc/Customizer/Content_Width.php:103 | The `(int)` cast of a digit string beyond the double range gives 0, with or without a leading `-`. |
| Php.IntToDecimalInjective | inc/Footer_Widget_Areas/Component.php:72-73 | Distinct integers have distinct decimal strings. |
| Php.Intersect | inc/Customizer/Fonts.php:50 | `array_intersect` returns no more elements than its first list has. |
| Php.IntersectCount | inc/Customizer/Fonts.php:50 | `array_intersect` keeps exactly the elements of the first list that occur in the second, each as often as the first list has it. |
| Php.IntersectAppend | inc/Customizer/Fonts.php:50 | `array_intersect` keeps the order of the first list: the intersection of a concatenation is the concatenation of the intersections. |
| Php.StrReplaceAbsent | inc/Customizer/Colors.php:40 | `str_replace` leaves a subject without the needle unchanged. |
| Php.StrPos | inc/Customizer/Fonts.php:173 | `strpos`: when it finds the needle, the needle occurs at that index and at no earlier one; when it does not, the needle occurs nowhere. |
| Php.StrReplace | inc/Customizer/Colors.php:40 | `str_replace` with one search string: every non-overlapping occurrence, left to right, is replaced; its partners are `Php.StrReplaceAbsent` and `SocialNavMenu.IconAfterEachLinkAfter`. |
| Php.Join | inc/Customizer/Fonts.php:158 | `implode`: the parts with the separator between each two; `CustomizerFonts.GoogleFamilyFallback` states the fallback list it builds. |
| Php.UnescapeQuotesRoundTrip | inc/Customizer/Fonts.php:161 | Replacing `&quot;` by `"` undoes the escaping of double quotes in a text without `&`. |
| BlockAreas.HasBlockArea | inc/Block_Areas/Component.php:98-104 | False without the plugin; otherwise true exactly when the plugin knows the slug. |
| BlockAreas.RenderBlockArea | inc/Block_Areas/Component.php:84-90 | Nothing is rendered without the plugin; otherwise the slug is handed to the plugin's renderer. |
| BlockAreas.FilterWpRigCssFiles | inc/Block_Areas/Component.php:70-77 | The footer widget areas stylesheet is dropped exactly when it is set and a `footer` block area exists. Every other key keeps its value. With unique keys the result is the input with one entry removed. |
| ColorSettings.CustomColorValuesKeys | inc/Customizer/Colors.php:39-43 | The slug => value array has exactly the custom colours' slugs as keys, in both directions. |
| ColorSettings.Slug | inc/Customizer/Colors.php:40 | A colour's palette slug is its CSS property with `color-` removed; `CustomizerColors.CustomSlugs` and `Editor.PaletteSlugs` state the slugs it gives. |
| ColorSettings.CustomColorValuesAt | inc/Customizer/Colors.php:39-43 | A slug that no later colour repeats maps to that colour's stored value or default. |
| ColorSettings.OverriddenPalette | inc/Customizer/Colors.php:45-51 | The palette keeps its length, order, names and slugs. An entry's colour becomes the value of its slug when that slug has one, and stays as it was otherwise. |
| ColorSettings.CollectCustomColorValues | inc/Customizer/Colors.php:39-43 | The first loop of the palette filter builds the slug => value array. |
| ColorSettings.OverrideColors | inc/Customizer/Colors.php:45-51 | The in-place loop rewrites each entry as the override prescribes and leaves the length unchanged. |
| ColorSettings.FilterEditorColorPalette | inc/Customizer/Colors.php:36-54 | The palette filter's result is the overridden palette. |
| ColorSettings.OverrideIdempotent | inc/Customizer/Colors.php:36-54 | Running the palette filter twice gives what running it once gives. |
| ColorSettings.EmitColorDeclarations | inc/Customizer/Colors.php:126-130 | The printer loop emits one escaped declaration per colour, in table order, with the stored value or the default. |
| ColorSettings.CollectSettings | inc/Customizer/Colors.php:77-99 | The partial-settings loop appends every colour's setting, in order, after what was already listed. |
| CustomizerColors.GetBaseColors | inc/Customizer/Colors.php:139-202 | Without custom-background support the nine base colours are returned. With it, the first one (`global_background_color`) is shifted off, leaving eight. `global_background_color` is present exactly without support. |
| CustomizerColors.CustomSlugs | inc/Customizer/Colors.php:209-266 | Removing `color-` from each custom colour's CSS property gives its `theme-*` slug. |
| CustomizerColors.BackgroundDecls | inc/Customizer/Colors.php:123-125 | `--global-background-color:#<bg>;` is printed exactly when custom backgrounds are supported and the host's background colour is non-empty. |
| CustomizerColors.PrintCssCustomPropertiesColors | inc/Customizer/Colors.php:119-132 | The printer emits `:root{`, the optional background declaration, one declaration per base and custom colour, and `}`. |
| CustomizerColors.ColorsCssDeclarations | inc/Customizer/Colors.php:119-132 | The printed block parses back to the background declaration, then one pair per base colour and per custom colour, in order. That is 18 declarations, or 17 when the host's background is empty. |
| CustomizerColors.BackgroundFirst | inc/Customizer/Colors.php:123-125 | With support and a non-empty background, the block opens with `--global-background-color:#<bg>;`, whatever the other values are. |
| CustomizerColors.PartialSettings | inc/Customizer/Colors.php:73-99 | The colour partial's settings list is `background_color` (only with custom-background support) followed by every colour setting. |
| CustomizerColors.PartialSettingsShape | inc/Customizer/Colors.php:73-99 | The partial watches 18 settings. With support the first is `background_color` and `global_background_color` is absent; without support the first is `global_background_color`. |
| CustomizerComponent.BothPaletteFiltersAsOne | inc/Customizer/Component.php:48-66 | Both components' palette filters use the same custom colours. With both hooked, the palette comes out as if only one were hooked. |
| CustomizerComponent.PrintCssCustomProperties | inc/Customizer/Component.php:186-196 | The older printer emits `:root{`, one declaration per base and custom colour, and `}`. |
| CustomizerComponent.CustomPropertiesDeclarations | inc/Customizer/Component.php:186-196 | The block parses back to thirteen pairs: four base colours, then nine custom colours. Each pair holds the escaped stored value or default. |
| CustomizerComponent.PartialSettings | inc/Customizer/Component.php:143-167 | The partial's settings list holds every colour setting in base-then-custom order. |
| CustomizerComponent.PartialSettingsDistinct | inc/Customizer/Component.php:203-294 | The thirteen settings of the merged tables are pairwise distinct. |
| ContentWidth.Width | inc/Customizer/Content_Width.php:103-106 | The width used is never 0, because a cast result of 0 is replaced by 45. |
| ContentWidth.PrintCssCustomPropertiesContentWidth | inc/Customizer/Content_Width.php:102-109 | The printer emits the one-declaration block `:root{--content-width:<N>rem;}` of the escaped width. |
| ContentWidth.WidthDefault | inc/Customizer/Content_Width.php:103 | With nothing stored the width is 45. |
| ContentWidth.WidthUnclamped | inc/Customizer/Content_Width.php:79-80 | A non-zero stored width that fits a 64-bit int, whether an int or its decimal string, is used as it is. The control's 32..70 range is not applied. |
| ContentWidth.WidthSaturates | inc/Customizer/Content_Width.php:103 | A stored digit string beyond `PHP_INT_MAX` but within the double range is cast to `PHP_INT_MAX`, and that is the width used. |
| ContentWidth.WidthOverflowFallsBack | inc/Customizer/Content_Width.php:103-106 | A stored digit string beyond the double range casts to 0, so the width falls back to 45. |
| ContentWidth.WidthZeroFallback | inc/Customizer/Content_Width.php:104-106 | A stored value whose cast is 0 gives 45. |
| ContentWidth.ContentWidthDeclaration | inc/Customizer/Content_Width.php:108 | The block parses back to the single `content-width` declaration. When the escaper leaves the value alone, its `(int)` cast is the width. |
| ContentWidth.FilterBlockEditorSettings | inc/Customizer/Content_Width.php:36-45 | Exactly one `{css: <block>}` style is appended. Earlier styles and all other settings are unchanged. |
| CustomizerFonts.GoogleFonts | inc/Customizer/Fonts.php:239-362 | The Google table has 30 families, each paired with its weights and fallbacks. |
| CustomizerFonts.GetFonts | inc/Customizer/Fonts.php:185-206 | The three font settings with their CSS properties and defaults; `CustomizerFonts.DefaultChosenValues` states the defaults. |
| CustomizerFonts.SystemFonts | inc/Customizer/Fonts.php:213-228 | Arial, Georgia, Helvetica and Times New Roman with their fallbacks and no weights; `CustomizerFonts.SystemFontsNotGoogle` and `CustomizerFonts.SystemFontsNeverSelected` are its partners. |
| CustomizerFonts.GoogleFontsUnique | inc/Customizer/Fonts.php:239-362 | The Google table names each family once. |
| CustomizerFonts.SystemFontsNotGoogle | inc/Customizer/Fonts.php:213-228 | No system font is also a Google font. |
| CustomizerFonts.Weights | inc/Customizer/Fonts.php:41-53 | A family's weights are the `array_intersect` of its own weights with 400, 500, 700 and 900. They come in its own order and multiplicity, or are 400 and 700 when it lists none. |
| CustomizerFonts.Variants | inc/Customizer/Fonts.php:54-57 | The variants are each weight followed by its `i` form; there are twice as many variants as weights. |
| CustomizerFonts.FontVariants | inc/Customizer/Fonts.php:54-57 | The inner loop builds exactly those variants. |
| CustomizerFonts.AddGoogleFamily | inc/Customizer/Fonts.php:45-60 | One step adds a Google family that is not yet selected, with its variants. |
| CustomizerFonts.SelectGoogleFonts | inc/Customizer/Fonts.php:43-61 | The selection loop computes the selection over the chosen values, in table order. |
| CustomizerFonts.FilterGoogleFonts | inc/Customizer/Fonts.php:37-64 | The incoming list is discarded. The result depends only on the stored font settings and the Google table. |
| CustomizerFonts.SelectedFamilies | inc/Customizer/Fonts.php:47 | A family is selected exactly when it is in the Google table and one of the chosen values names it. |
| CustomizerFonts.SelectedOnceWithVariants | inc/Customizer/Fonts.php:47-59 | No family is selected twice, and each selected family carries its variants. |
| CustomizerFonts.SystemFontsNeverSelected | inc/Customizer/Fonts.php:47 | System fonts such as Arial are never selected. |
| CustomizerFonts.CrimsonTextEntry | inc/Customizer/Fonts.php:269 | The Google table lists Crimson Text with weights 400, 600, 700 and fallback serif. |
| CustomizerFonts.RobotoCondensedEntry | inc/Customizer/Fonts.php:337 | The Google table lists Roboto Condensed with weights 300, 400, 700 and fallback sans-serif. |
| CustomizerFonts.DefaultChosenValues | inc/Customizer/Fonts.php:185-206 | With nothing stored, the font settings take Crimson Text, Roboto Condensed, Roboto Condensed. |
| CustomizerFonts.DefaultSelection | inc/Customizer/Fonts.php:37-64 | With nothing stored, the filter selects Crimson Text, then Roboto Condensed once, each with 400, 400i, 700, 700i. |
| CustomizerFonts.SelectionOfDefaults | inc/Customizer/Fonts.php:44-61 | The same selection holds against any table that has the two default families as the Google table does. |
| CustomizerFonts.CrimsonWeights | inc/Customizer/Fonts.php:49-50 | Crimson Text is loaded with 400 and 700, because 600 is not a necessary weight. |
| CustomizerFonts.RobotoWeights | inc/Customizer/Fonts.php:49-50 | Roboto Condensed is loaded with 400 and 700, because 300 is not a necessary weight. |
| CustomizerFonts.DefaultWeights | inc/Customizer/Fonts.php:49-57 | Both default families get the variants 400, 400i, 700, 700i. |
| CustomizerFonts.RegularBoldVariants | inc/Customizer/Fonts.php:54-57 | Weights 400 and 700 give the variants 400, 400i, 700, 700i. |
| CustomizerFonts.SelectStepRepeat | inc/Customizer/Fonts.php:47 | A family that is already selected is not selected again. |
| CustomizerFonts.SelectStepAdds | inc/Customizer/Fonts.php:47-59 | A Google family not yet selected is appended with its variants. |
| CustomizerFonts.SelectOne | inc/Customizer/Fonts.php:44-61 | A single Google family is selected with its variants. |
| CustomizerFonts.SelectTwo | inc/Customizer/Fonts.php:44-61 | Two distinct Google families are selected in the order they are named. |
| CustomizerFonts.SecondChoiceOnce | inc/Customizer/Fonts.php:47 | Naming the second family again, as the branding and highlight defaults do, adds nothing. |
| CustomizerFonts.Quote | inc/Customizer/Fonts.php:172-178 | A name is wrapped in double quotes exactly when it contains a space and does not start with one, because `strpos` must return a truthy index. |
| CustomizerFonts.UnknownFamilyNoFallback | inc/Customizer/Fonts.php:156-159 | A value in neither table gets no fallback families. |
| CustomizerFonts.FontOutput | inc/Customizer/Fonts.php:156-159 | The quoted value, followed by a comma and its quoted fallbacks when the merged table lists the value with fallbacks; stated by `CustomizerFonts.UnknownFamilyNoFallback`, `CustomizerFonts.GoogleFamilyFallback` and `CustomizerFonts.BuildFontOutput`. |
| CustomizerFonts.GoogleFamilyFallback | inc/Customizer/Fonts.php:151-159 | A Google family gets its own quoted fallbacks after a comma, since the Google table wins the merge. |
| CustomizerFonts.BuildFontOutput | inc/Customizer/Fonts.php:156-159 | The declaration value is the quoted family, followed by its quoted fallbacks when the merged table has any. |
| CustomizerFonts.EmitFontDeclarations | inc/Customizer/Fonts.php:154-162 | The printer loop emits one declaration per font setting, in table order. |
| CustomizerFonts.PrintCssCustomPropertiesFonts | inc/Customizer/Fonts.php:148-164 | The printer emits `:root{`, the font declarations over the merged system and Google table, and `}`. |
| CustomizerFonts.FontsCssDeclarations | inc/Customizer/Fonts.php:153-163 | The block parses back to exactly three declarations, one per font setting, in table order. |
| CustomizerFonts.QuotesRestored | inc/Customizer/Fonts.php:161 | With double-quote escaping and an output without `&`, the printed value is the unescaped output. |
| Editor.PaletteSlugs | inc/Editor/Component.php:51-97 | The nine palette slugs are the `theme-*` slugs derived from the Customizer's custom colours, in the same order. |
| Editor.EditorColorPalette | inc/Editor/Component.php:51-97 | The nine palette entries the theme declares; `Editor.PaletteSlugs` states their slugs and `Editor.PaletteFollowsCustomizer` their colours after the filter. |
| Editor.EditorFontSizes | inc/Editor/Component.php:128-156 | The four editor font sizes; `Editor.FontSizesIncreasing` states their sizes and slugs. |
| Editor.StyleVariations | inc/Editor/Component.php:163-184 | The block style variation table, block by block; `Editor.ScriptCalls` states the calls it yields. |
| Editor.FontSizesIncreasing | inc/Editor/Component.php:128-156 | The four font sizes strictly increase, with slugs small, medium, large and larger. |
| Editor.ActionAddEditorSupport | inc/Editor/Component.php:41-158 | The theme declares editor styles, block styles and wide alignment. It registers the palette after the `wprig_editor_color_palette` chain, and the font-size table. |
| Editor.CustomSlugsDistinct | inc/Customizer/Colors.php:209-266 | No two custom colours share a palette slug. |
| Editor.PaletteFollowsCustomizer | inc/Editor/Component.php:104 | With the Customizer's palette filter hooked, every palette colour is the stored or default value of the matching custom colour. Names and slugs stay as declared. |
| Editor.AppendBlockCalls | inc/Editor/Component.php:188-191 | The inner loop appends one `registerBlockStyle` line per variation, in order, after the existing script. |
| Editor.BuildScript | inc/Editor/Component.php:186-192 | The nested loop builds the lines of each block type, in table order. |
| Editor.ActionAddBlockStyleVariations | inc/Editor/Component.php:162-195 | The inline script is the script of the style-variation table. |
| Editor.ScriptCalls | inc/Editor/Component.php:163-192 | The script holds four registrations: primary then secondary for `core/button`, then the same for `atomic-blocks/ab-button`. |
| FooterInfo.DefaultFooterInfoNotEmpty | inc/Footer_Info/Component.php:57-63 | The default message is never one PHP counts as empty. |
| FooterInfo.DefaultFooterInfo | inc/Footer_Info/Component.php:57-63 | The default message, the WordPress credit and the theme credit with links through `esc_url`; `FooterInfo.DefaultFooterInfoNotEmpty` states that it is truthy. |
| FooterInfo.CustomizerFooterInfoFilter | inc/Customizer/Footer_Info.php:35-37 | The Customizer's callback: the stored `footer_info` cast to string, `''` when unset; `FooterInfo.CustomizerFooterInfo` states the message it leads to. |
| FooterInfo.FooterInfoMessage | inc/Footer_Info/Component.php:65-78 | The message shown is never empty. It is the filtered message unless that is `''` or `'0'`, in which case it is the default. |
| FooterInfo.FooterInfoOutput | inc/Footer_Info/Component.php:80 | The output is always `<span class="site-footer-info">`, the filtered message through `wp_kses`, then `</span>`. |
| FooterInfo.DisplayFooterInfo | inc/Footer_Info/Component.php:56-81 | `display_footer_info` builds the default by successive appends and echoes the wrapped message. |
| FooterInfo.CustomizerFooterInfo | inc/Customizer/Footer_Info.php:35-37 | With the Customizer's filter the stored message is shown, or the default when it is empty or nothing is stored. |
| FooterWidgetAreas.ColumnIdInjective | inc/Footer_Widget_Areas/Component.php:73 | Two columns share a sidebar id exactly when they are the same column. |
| FooterWidgetAreas.GetFooterWidgetAreaCount | inc/Footer_Widget_Areas/Component.php:89-91 | The number of footer columns, 4; `FooterWidgetAreas.RegisterFooterWidgetAreas` registers that many. |
| FooterWidgetAreas.FooterSidebar | inc/Footer_Widget_Areas/Component.php:69-80 | The `register_sidebar` arguments of one column; `FooterWidgetAreas.RegisteredIds` states the ids. |
| FooterWidgetAreas.IsFooterWidgetAreaActive | inc/Footer_Widget_Areas/Component.php:114-116 | A column is active when the host reports its sidebar id active; `FooterWidgetAreas.DisplayUsesRegisteredId` states that the id is the registered one. |
| FooterWidgetAreas.DisplayFooterWidgetArea | inc/Footer_Widget_Areas/Component.php:123-125 | The sidebar id handed to `dynamic_sidebar`; stated by `FooterWidgetAreas.DisplayUsesRegisteredId`. |
| FooterWidgetAreas.RegisterFooterWidgetAreas | inc/Footer_Widget_Areas/Component.php:67-82 | One sidebar is registered per column, columns 1 to 4 in order. |
| FooterWidgetAreas.RegisteredIds | inc/Footer_Widget_Areas/Component.php:68-80 | The registered ids are `footer-1` to `footer-4`, and they are pairwise distinct. |
| FooterWidgetAreas.DisplayUsesRegisteredId | inc/Footer_Widget_Areas/Component.php:114-125 | The activity check and the display of a column use the id the column was registered under. |
| FooterWidgetAreas.FirstActiveColumn | inc/Footer_Widget_Areas/Component.php:99-103 | The first active column from the given one up to 4: every column before it is inactive; with none, all are inactive. |
| FooterWidgetAreas.HasActiveFooterWidgetAreas | inc/Footer_Widget_Areas/Component.php:98-106 | True exactly when some column from 1 to 4 is active. The loop stops at the first active column. |
| FrontPage.FilterShowingPostHeader | inc/Customizer/Front_Page.php:40-46 | Off the static front page `show` is returned unchanged. On it, the header is shown exactly when `hide_page_on_front_header` is not truthy. |
| FrontPage.IsFrontPage | inc/Customizer/Front_Page.php:41 | The site shows a static page on the front and the `(int)` cast of its ID is the post's ID; stated by `FrontPage.FrontPageIdCast`, `FrontPage.FrontPageIdSaturates` and `FrontPage.FrontPageIdOverflow`. |
| FrontPage.FilterShowingPostFooter | inc/Customizer/Front_Page.php:55-61 | The same rule for the footer with `hide_page_on_front_footer`. |
| FrontPage.FrontPageShownByDefault | inc/Customizer/Front_Page.php:45 | On the front page, with neither setting stored, header and footer are shown. |
| FrontPage.HeaderAndFooterIndependent | inc/Customizer/Front_Page.php:45-60 | The header's result ignores the footer setting, and the footer's result ignores the header setting. |
| FrontPage.OtherPagesUnchanged | inc/Customizer/Front_Page.php:41-56 | Without a static front page, or for another post, neither filter changes anything. |
| FrontPage.FrontPageIdCast | inc/Customizer/Front_Page.php:41 | The front page ID is compared after the `(int)` cast, so a stored `"12"` matches post 12. |
| FrontPage.FrontPageIdSaturates | inc/Customizer/Front_Page.php:41 | A stored front page ID beyond `PHP_INT_MAX` but within the double range is cast to `PHP_INT_MAX`, so exactly the post with that ID counts as the front page. |
| FrontPage.FrontPageIdOverflow | inc/Customizer/Front_Page.php:41 | A stored front page ID beyond the double range casts to 0, so it matches only a post whose ID is 0. |
| NavMenus.FilterPrimaryNavMenuDropdownSymbol | inc/Nav_Menus/Component.php:107-120 | The dropdown markup is appended exactly for primary-menu items with the `menu-item-has-children` class. Every other item is unchanged. |
| NavMenus.StartElFiltersExclusive | inc/Nav_Menus/Component.php:110 | Of the two `walker_nav_menu_start_el` filters, run in order, at most one changes an item, because each is gated on its own location. |
| NavMenus.DefaultTo | inc/Nav_Menus/Component.php:138-140 | Filling a default keeps keys unique. |
| NavMenus.DisplayPrimaryNavMenu | inc/Nav_Menus/Component.php:137-145 | `display_primary_nav_menu` hands on the defaulted arguments. |
| NavMenus.PrimaryNavMenuArgsDefaults | inc/Nav_Menus/Component.php:138-142 | `container` defaults to `ul` and `theme_location` is forced to `primary`. Every other argument is the caller's. |
| NavMenus.DisplayFooterNavMenu | inc/Nav_Menus/Component.php:162-173 | `display_footer_nav_menu` hands on the defaulted arguments. |
| NavMenus.FooterNavMenuArgsDefaults | inc/Nav_Menus/Component.php:163-170 | `container` defaults to false, `menu_class` to `menu inline-menu`, and `theme_location` is forced to `footer`. Every other argument is the caller's. |
| NavMenus.LinkWrap | inc/Nav_Menus/Component.php:197-200 | Adding the screen-reader wrapping keeps keys unique. |
| NavMenus.LinkWrapGet | inc/Nav_Menus/Component.php:197-200 | The wrapping sets `link_before` and `link_after` only when neither is set, and touches no other key. |
| NavMenus.DisplaySocialNavMenu | inc/Nav_Menus/Component.php:190-206 | `display_social_nav_menu` hands on the defaulted arguments. |
| NavMenus.SocialNavMenuArgsGet | inc/Nav_Menus/Component.php:191-203 | The social menu's arguments, read at any key. |
| NavMenus.SocialNavMenuArgsDefaults | inc/Nav_Menus/Component.php:191-203 | `container` defaults to false and `menu_class` to `menu social-menu`. The wrapping is added only when the caller set neither half. `theme_location` is forced to `social` and `depth` to 1. Every other argument is the caller's. |
| PostContent.ShowingPostHeader | inc/Post_Content/Component.php:65-78 | False when no post resolves. Otherwise the bool of the filter chain seeded with `true`, so true with no filters. |
| PostContent.ShowingPostFooter | inc/Post_Content/Component.php:86-99 | The same for the post footer. |
| PostContent.ShowingPostMeta | inc/Post_Content/Component.php:108-122 | The same for a meta field, with the field name passed to the callbacks. |
| PostContent.ShowingPostTaxonomyTerms | inc/Post_Content/Component.php:131-145 | The same for a taxonomy's terms. |
| PostContent.MetaWithToggle | inc/Post_Content/Component.php:121 | With the meta toggle as the only filter, the tag is the toggle applied to `true`, so an unset unknown field is shown. |
| PostContent.MetaToggleCallback | inc/Customizer/Post_Content_Toggles.php:44 | The meta toggle hooked into the chain: the incoming value cast to bool is its `$show`; `PostContent.MetaWithToggle` states the result. |
| PostContent.TermsToggleCallback | inc/Customizer/Post_Content_Toggles.php:75 | The taxonomy toggle hooked into the chain; `PostContent.TermsWithToggle` states the result. |
| PostContent.FrontPageHeaderCallback | inc/Customizer/Front_Page.php:40 | The front-page header filter hooked into the chain; `PostContent.HeaderFooterWithFrontPage` states the result. |
| PostContent.FrontPageFooterCallback | inc/Customizer/Front_Page.php:55 | The front-page footer filter hooked into the chain; `PostContent.HeaderFooterWithFrontPage` states the result. |
| PostContent.TermsWithToggle | inc/Post_Content/Component.php:144 | With the terms toggle as the only filter, an unset toggle shows the terms. |
| PostContent.HeaderFooterWithFrontPage | inc/Post_Content/Component.php:77 | With the front-page filters alone, header and footer are shown everywhere except on the static front page. There each follows its own hide setting. |
| PostContentToggles.Prefix | inc/Customizer/Post_Content_Toggles.php:290-292 | The prefix is exactly `post_type_<name>_`. |
| PostContentToggles.PrefixInjective | inc/Customizer/Post_Content_Toggles.php:290-292 | Different post types have different prefixes. |
| PostContentToggles.GetMetadata | inc/Customizer/Post_Content_Toggles.php:235-255 | The date field is always listed, with default true exactly for `post` or a type with an archive. The author field is listed only for types that support authors, with the multi-author flag as default. |
| PostContentToggles.Metadata | inc/Customizer/Post_Content_Toggles.php:238-252 | The date entry, then the author entry for types that support authors; `PostContentToggles.GetMetadata` states its entries and defaults. |
| PostContentToggles.FindDefault | inc/Customizer/Post_Content_Toggles.php:56-60 | Finds the set default of a field with the given setting, if any field has one. |
| PostContentToggles.FilterShowingPostMeta | inc/Customizer/Post_Content_Toggles.php:44-65 | The filter, with its early-returning search, computes the meta toggle's rule. |
| PostContentToggles.ShowingPostMeta | inc/Customizer/Post_Content_Toggles.php:44-65 | The meta toggle's rule; stated case by case by `PostContentToggles.NoPostTypeHidesMeta`, `PostContentToggles.StoredMetaValueDecides`, `PostContentToggles.DefaultWordIsAbsent`, `PostContentToggles.DateDefault`, `PostContentToggles.AuthorDefault` and `PostContentToggles.OtherFieldKeepsShow`. |
| PostContentToggles.NoPostTypeHidesMeta | inc/Customizer/Post_Content_Toggles.php:46-48 | Without a post type the meta field is hidden. |
| PostContentToggles.StoredMetaValueDecides | inc/Customizer/Post_Content_Toggles.php:52-64 | A stored value other than `DEFAULT` is the answer, cast to bool. |
| PostContentToggles.DefaultWordIsAbsent | inc/Customizer/Post_Content_Toggles.php:52-54 | A stored `DEFAULT` counts as nothing stored. |
| PostContentToggles.DateDefault | inc/Customizer/Post_Content_Toggles.php:238-244 | With nothing stored, the date is shown exactly for `post` or a type with an archive. |
| PostContentToggles.AuthorDefault | inc/Customizer/Post_Content_Toggles.php:246-252 | With nothing stored, the author follows the multi-author flag when the type supports authors. Otherwise the incoming `show` stands. |
| PostContentToggles.OtherFieldKeepsShow | inc/Customizer/Post_Content_Toggles.php:61 | With nothing stored, a field other than date and author keeps the incoming `show`. |
| PostContentToggles.PublicTaxonomies | inc/Customizer/Post_Content_Toggles.php:266-269 | The public taxonomies, with none added. |
| PostContentToggles.GetTaxonomies | inc/Customizer/Post_Content_Toggles.php:263-282 | One toggle per public taxonomy, in order, each defaulting to true under `<prefix>show_terms_<name>`. |
| PostContentToggles.ShowingPostTaxonomyTerms | inc/Customizer/Post_Content_Toggles.php:75-84 | False without a post type. Otherwise the stored toggle cast to bool, or the incoming `show` when nothing is stored. |
| PostContentToggles.TaxonomyToggleIsRead | inc/Customizer/Post_Content_Toggles.php:83 | The filter reads exactly the setting `get_taxonomies` lists for the taxonomy. |
| SocialNavMenu.SocialIcons | inc/Nav_Menus/Social_Nav_Menu.php:62-103 | The icon table has 38 pattern => icon entries, in declaration order. |
| SocialNavMenu.SkypeAndWordPressShareIcons | inc/Nav_Menus/Social_Nav_Menu.php:85-99 | `skype.com` and `skype:` both give `skype`; `wordpress.org` and `wordpress.com` both give `wordpress`. |
| SocialNavMenu.IconForFirstMatch | inc/Nav_Menus/Social_Nav_Menu.php:47-51 | The icon is that of the first entry whose pattern occurs anywhere in the markup. |
| SocialNavMenu.IconFor | inc/Nav_Menus/Social_Nav_Menu.php:47-54 | The icon of the first table entry whose pattern occurs in the markup, `chain` when none does; stated by `SocialNavMenu.IconForFirstMatch` and `SocialNavMenu.IconForNoMatch`. |
| SocialNavMenu.IconForNoMatch | inc/Nav_Menus/Social_Nav_Menu.php:54 | With no pattern occurring, the icon is `chain`. |
| SocialNavMenu.OtherMenusUnchanged | inc/Nav_Menus/Social_Nav_Menu.php:41-43 | Items of other menus, or of a menu without a location, are left alone. |
| SocialNavMenu.FilterSocialNavMenuIcons | inc/Nav_Menus/Social_Nav_Menu.php:39-55 | The item markup untouched outside the social location, otherwise with the icon after each `link_after`; stated by `SocialNavMenu.OtherMenusUnchanged`, `SocialNavMenu.IconAfterEachLinkAfter`, `SocialNavMenu.SocialItemIcon` and `SocialNavMenu.SocialItemFallback`. |
| SocialNavMenu.IconAfterEachLinkAfter | inc/Nav_Menus/Social_Nav_Menu.php:49-54 | The markup grows by one icon per occurrence of `link_after`. It is unchanged when `link_after` is empty or absent. |
| SocialNavMenu.SocialItemIcon | inc/Nav_Menus/Social_Nav_Menu.php:47-51 | In the social menu, the icon inserted is that of the first pattern the item contains. |
| SocialNavMenu.SocialItemFallback | inc/Nav_Menus/Social_Nav_Menu.php:54 | In the social menu, an item that matches no pattern gets the `chain` icon. |

## Left out

- Hook registration (`initialize`, `add_action`, `add_filter`), the `template_tags` maps and `get_slug` are the host's dispatcher. Filter chains are modelled as explicit lists of callbacks (`Host.ApplyFilters`).
- The `WP_Customize_Manager` calls in the `customize_register` methods (settings, controls, sections, partials) are host API. Only the two partial-settings lists are modelled.
- The Customizer's `footer_info` setting is registered in inc/Customizer/Footer_Info.php. Only its filter is modelled.
- `print_content_template_part_for_post` swaps the global post and loads templates. It is not modelled.
- The inline jQuery script of the front-page controls is browser code, and so is the live-preview script assets/js/src/customizer.js.
- The footer template parts only call the template tags already covered.
- `action_print_css_custom_properties*` only wrap a printer in `<style>` tags; the printers themselves are modelled.
- `echo` and output buffering are modelled as returned strings.
- Translation (`__`, `_x`, and the translating half of `esc_html__`) is taken as the identity. `esc_url` on the two URLs of the footer default and `esc_html` on the footer sidebar names and description are function parameters (`escUrl`, `escHtml`). The two `esc_html__` texts of the footer default contain no character `esc_html` changes, so they appear as they are.
- `esc_attr`, `esc_html` on column names, `wp_kses`, `get_svg_icon`, `wp_json_encode` and `is_active_sidebar` are function parameters. Their behaviour is not modelled.
- PostContent.MetaToggleCallback: a null handed on by an earlier callback of the chain makes PHP raise a TypeError on entry to five callbacks, because their first parameter is a non-nullable scalar. These are `bool $show` at inc/Customizer/Post_Content_Toggles.php:44 and :75 and at inc/Customizer/Front_Page.php:40 and :55, and `string $footer_info` at inc/Customizer/Footer_Info.php:35. The model has no error outcome there. `PostContent.MetaToggleCallback`, `PostContent.TermsToggleCallback`, `PostContent.FrontPageHeaderCallback` and `PostContent.FrontPageFooterCallback` cast a null to false and go on. `FooterInfo.CustomizerFooterInfoFilter` ignores its input.
- PostContentToggles.FilterShowingPostMeta: the post type is assumed registered. For an unregistered type, `get_post_type_object` returns null, and `get_metadata` then fails with a TypeError whenever the setting is unset or `DEFAULT`. That error is not modelled: `features` is always a `PostTypeFeatures`. The same holds for `PostContentToggles.ShowingPostMeta`.
- The host lookups are also parameters or oracle maps: `get_background_color`, `current_theme_supports`, `is_multi_author`, `get_post`, `get_post_type_object` and `get_object_taxonomies`. So are `has_nav_menu`, `wp_nav_menu`, `register_sidebar`, `dynamic_sidebar` and the Block Areas plugin.
- The `is_*_nav_menu_active` tags are `(bool) has_nav_menu(...)` of a host oracle, with no rule of their own.
- The `theme_mod_{$name}` filter of `get_theme_mod`, and its `sprintf` on defaults, are left out. No default contains `%`.
- Php.ToInt: does not model the float and exponent forms of PHP's `(int)` cast of numeric strings (`"1e3"`, `"12.5"`). Only optional leading whitespace, a sign and leading digits are read. A digit run that does not fit an int is capped as PHP caps the double it becomes: saturated at the 64-bit bounds while the double is finite, 0 once it is infinite. The model takes that threshold to be the correctly rounded one, (2^54 - 1) * 2^970. The rounding of the double itself below that threshold is not modelled, since capping hides it. `Php.Value` has no float and no array case, so the cast of those is not modelled either.
- NavMenus.FilterPrimaryNavMenuDropdownSymbol: the `in_array` test on the item's classes is modelled as string membership. PHP's loose comparison of values of other types is not modelled.
- An editor-settings array without a `styles` entry is modelled as one with an empty list of styles.
- The `add_theme_support( 'block-areas', ... )` call declares a feature to the host and has no rule.
- The colour and font tables leave out the titles of their entries. Only the setting, CSS property and default are modelled.
