/**
 * inc/Editor/Component.php: the block editor support the theme declares
 * (its colour palette, passed through the `wprig_editor_color_palette`
 * filter, and its font sizes) and the inline script registering the block
 * style variations.
 */
module Editor {
  import opened Php
  import opened Host
  import opened ColorSettings
  import CustomizerColors

  /** The palette as the component declares it, before the filter. */
  function EditorColorPalette(): seq<PaletteEntry>
  {
    [
      PaletteEntry("Primary", "theme-primary", Str("#e36d60")),
      PaletteEntry("Secondary", "theme-secondary", Str("#41848f")),
      PaletteEntry("Red", "theme-red", Str("#C0392B")),
      PaletteEntry("Green", "theme-green", Str("#27AE60")),
      PaletteEntry("Blue", "theme-blue", Str("#2980B9")),
      PaletteEntry("Yellow", "theme-yellow", Str("#F1C40F")),
      PaletteEntry("Black", "theme-black", Str("#1C2833")),
      PaletteEntry("Grey", "theme-grey", Str("#95A5A6")),
      PaletteEntry("White", "theme-white", Str("#ECF0F1"))
    ]
  }

  /** The palette's slugs are the `theme-*` slugs the Customizer derives from its custom colours, in the same order. */
  lemma PaletteSlugs()
    ensures |EditorColorPalette()| == 9
    ensures forall i :: 0 <= i < 9 ==> EditorColorPalette()[i].slug == CustomizerColors.ThemeSlugs()[i]
    ensures forall i :: 0 <= i < 9 ==> EditorColorPalette()[i].slug == Slug(CustomizerColors.CustomThemeColors()[i])
  {
    CustomizerColors.CustomSlugs();
  }

  /** One entry of the font-size table. */
  datatype FontSize = FontSize(name: string, shortName: string, size: int, slug: string)

  function EditorFontSizes(): seq<FontSize>
  {
    [
      FontSize("Small", "S", 16, "small"),
      FontSize("Medium", "M", 25, "medium"),
      FontSize("Large", "L", 31, "large"),
      FontSize("Larger", "XL", 39, "larger")
    ]
  }

  /** The font sizes grow strictly from the first entry to the last. */
  lemma FontSizesIncreasing()
    ensures |EditorFontSizes()| == 4
    ensures forall i, j :: 0 <= i < j < 4 ==> EditorFontSizes()[i].size < EditorFontSizes()[j].size
    ensures forall i :: 0 <= i < 4 ==> EditorFontSizes()[i].slug == ["small", "medium", "large", "larger"][i]
  {
  }

  /** What action_add_editor_support declares: the plain theme features, the palette and the font sizes. */
  datatype EditorSupport = EditorSupport(features: seq<string>, colorPalette: seq<PaletteEntry>, fontSizes: seq<FontSize>)

  /** action_add_editor_support; `chain` is the `wprig_editor_color_palette` filter chain. */
  method ActionAddEditorSupport(chain: seq<(seq<PaletteEntry>, ()) -> seq<PaletteEntry>>) returns (support: EditorSupport)
    ensures support.features == ["editor-styles", "wp-block-styles", "align-wide"]
    ensures support.colorPalette == ApplyFilters(chain, EditorColorPalette(), ())
    ensures support.fontSizes == EditorFontSizes()
  {
    var features := ["editor-styles"];
    features := features + ["wp-block-styles"];
    features := features + ["align-wide"];
    var editorColorPalette := EditorColorPalette();
    editorColorPalette := ApplyFilters(chain, editorColorPalette, ());
    support := EditorSupport(features, editorColorPalette, EditorFontSizes());
  }

  /** No two of the custom colours share a slug. */
  lemma CustomSlugsDistinct(i: nat, j: nat)
    requires i < j < 9
    ensures Slug(CustomizerColors.CustomThemeColors()[j]) != Slug(CustomizerColors.CustomThemeColors()[i])
  {
    CustomizerColors.CustomSlugAt(i);
    CustomizerColors.CustomSlugAt(j);
    ThemeSlugsDistinct(i, j);
  }

  /** The `theme-*` slugs differ in length or in their seventh character. */
  lemma ThemeSlugsDistinct(i: nat, j: nat)
    requires i < j < 9
    ensures CustomizerColors.ThemeSlugs()[i] != CustomizerColors.ThemeSlugs()[j]
  {
    var t := CustomizerColors.ThemeSlugs();
    assert |t[i]| != |t[j]| || t[i][6] != t[j][6];
  }

  /**
   * With the Customizer's palette filter hooked, every palette colour is the
   * stored (or default) value of the matching custom colour setting; names
   * and slugs stay as declared.
   */
  lemma PaletteFollowsCustomizer(mods: Mods, i: nat)
    requires i < 9
    ensures var palette := ApplyFilters([(p: seq<PaletteEntry>, u: ()) => OverriddenPalette(CustomizerColors.CustomThemeColors(), mods, p)], EditorColorPalette(), ());
            |palette| == 9
            && palette[i].name == EditorColorPalette()[i].name
            && palette[i].slug == EditorColorPalette()[i].slug
            && palette[i].color == Resolved(mods, CustomizerColors.CustomThemeColors()[i])
  {
    var colors := CustomizerColors.CustomThemeColors();
    var f := (p: seq<PaletteEntry>, u: ()) => OverriddenPalette(colors, mods, p);
    var chain := [f];
    assert chain[1..] == [];
    assert ApplyFilters(chain, EditorColorPalette(), ()) == f(EditorColorPalette(), ());
    PaletteSlugs();
    forall j | i < j < 9 ensures Slug(colors[j]) != Slug(colors[i]) {
      CustomSlugsDistinct(i, j);
    }
    CustomColorValuesAt(colors, mods, i);
    assert Resolved(mods, colors[i]) != Null;
  }

  /** One block style variation: its name and its `label` (here `title`, since `label` is a keyword). */
  datatype Variation = Variation(name: string, title: string)

  /** The style variations per block type, in declaration order. */
  function StyleVariations(): seq<(string, seq<Variation>)>
  {
    [
      ("core/button", [Variation("primary", "Primary"), Variation("secondary", "Secondary")]),
      ("atomic-blocks/ab-button", [Variation("primary", "Primary"), Variation("secondary", "Secondary")])
    ]
  }

  /** One line of the script; `encoded` is wp_json_encode of the variation. */
  function RegisterCall(blockType: string, encoded: string): string
  {
    "wp.blocks.registerBlockStyle( '" + blockType + "', " + encoded + " );"
  }

  /** The lines of one block type, in order; `json` stands for wp_json_encode. */
  function BlockCalls(blockType: string, variations: seq<Variation>, json: Variation -> string): string
  {
    if variations == [] then ""
    else BlockCalls(blockType, variations[..|variations| - 1], json)
         + RegisterCall(blockType, json(variations[|variations| - 1]))
  }

  /** The whole script: the lines of each block type, in table order. */
  function Script(table: seq<(string, seq<Variation>)>, json: Variation -> string): string
  {
    if table == [] then ""
    else Script(table[..|table| - 1], json) + BlockCalls(table[|table| - 1].0, table[|table| - 1].1, json)
  }

  /** The inner loop of action_add_block_style_variations: one line per variation of a block type. */
  method AppendBlockCalls(script: string, blockType: string, variations: seq<Variation>, json: Variation -> string)
    returns (out: string)
    ensures out == script + BlockCalls(blockType, variations, json)
  {
    out := script;
    var j := 0;
    while j < |variations|
      invariant 0 <= j <= |variations|
      invariant out == script + BlockCalls(blockType, variations[..j], json)
    {
      var encoded := json(variations[j]);
      BlockCallsSnoc(script, blockType, variations, j, json);
      out := out + RegisterCall(blockType, encoded);
      j := j + 1;
    }
    assert variations[..j] == variations;
  }

  /** One more variation adds its line at the end. */
  lemma BlockCallsSnoc(script: string, blockType: string, variations: seq<Variation>, j: nat, json: Variation -> string)
    requires j < |variations|
    ensures script + BlockCalls(blockType, variations[..j + 1], json)
         == script + BlockCalls(blockType, variations[..j], json) + RegisterCall(blockType, json(variations[j]))
  {
    assert variations[..j + 1][..j] == variations[..j];
  }

  /** The nested loop of action_add_block_style_variations, over any table of variations. */
  method BuildScript(styleVariations: seq<(string, seq<Variation>)>, json: Variation -> string) returns (script: string)
    ensures script == Script(styleVariations, json)
  {
    script := "";
    var i := 0;
    while i < |styleVariations|
      invariant 0 <= i <= |styleVariations|
      invariant script == Script(styleVariations[..i], json)
    {
      script := AppendBlockCalls(script, styleVariations[i].0, styleVariations[i].1, json);
      assert styleVariations[..i + 1][..i] == styleVariations[..i];
      i := i + 1;
    }
    assert styleVariations[..i] == styleVariations;
  }

  /** action_add_block_style_variations: the script handed to wp_add_inline_script. */
  method ActionAddBlockStyleVariations(json: Variation -> string) returns (script: string)
    ensures script == Script(StyleVariations(), json)
  {
    script := BuildScript(StyleVariations(), json);
  }

  /**
   * The script holds four registrations: primary then secondary for
   * core/button, then the same for atomic-blocks/ab-button.
   */
  lemma ScriptCalls(json: Variation -> string)
    ensures Script(StyleVariations(), json)
         == RegisterCall("core/button", json(Variation("primary", "Primary")))
          + RegisterCall("core/button", json(Variation("secondary", "Secondary")))
          + RegisterCall("atomic-blocks/ab-button", json(Variation("primary", "Primary")))
          + RegisterCall("atomic-blocks/ab-button", json(Variation("secondary", "Secondary")))
  {
    var p, q := Variation("primary", "Primary"), Variation("secondary", "Secondary");
    BlockCallsTwo("core/button", p, q, json);
    BlockCallsTwo("atomic-blocks/ab-button", p, q, json);
    ScriptTwo(("core/button", [p, q]), ("atomic-blocks/ab-button", [p, q]), json);
  }

  lemma BlockCallsTwo(blockType: string, a: Variation, b: Variation, json: Variation -> string)
    ensures BlockCalls(blockType, [a, b], json) == RegisterCall(blockType, json(a)) + RegisterCall(blockType, json(b))
  {
    assert [a, b][..1] == [a] && [a][..0] == [];
    assert BlockCalls(blockType, [a], json) == "" + RegisterCall(blockType, json(a)) == RegisterCall(blockType, json(a));
  }

  lemma ScriptTwo(first: (string, seq<Variation>), second: (string, seq<Variation>), json: Variation -> string)
    ensures Script([first, second], json) == BlockCalls(first.0, first.1, json) + BlockCalls(second.0, second.1, json)
  {
    assert [first, second][..1] == [first] && [first][..0] == [];
    assert Script([first], json) == "" + BlockCalls(first.0, first.1, json) == BlockCalls(first.0, first.1, json);
  }
}
