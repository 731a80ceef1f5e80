/**
 * inc/Customizer/Content_Width.php: the content-width custom property, printed
 * on the front end and handed to the block editor as one more editor style.
 */
module ContentWidth {
  import opened Php
  import opened Host
  import Css
  import Dict

  /**
   * The width in rem the printer uses: the (int) cast of the stored
   * `content_width` (45 when nothing is stored), with 0 replaced by 45. The
   * Customizer control's range of 32 to 70 plays no part here.
   */
  function Width(mods: Mods): (w: int)
    ensures w != 0 && InIntRange(w)
  {
    var width := ToInt(GetThemeMod(mods, "content_width", Int(45)));
    if !ToBool(Int(width as Int64)) then 45 else width
  }

  /** The one declaration of the block: `--content-width:<N>rem;`, after the escaper. */
  function WidthPair(mods: Mods, esc: string -> string): (string, string)
  {
    ("content-width", esc(IntToDecimal(Width(mods)) + "rem"))
  }

  /** What print_css_custom_properties_content_width prints. */
  function ContentWidthCss(mods: Mods, esc: string -> string): string
  {
    Css.Root(Css.Decls([WidthPair(mods, esc)]))
  }

  /** print_css_custom_properties_content_width; `esc` stands for esc_attr. */
  method PrintCssCustomPropertiesContentWidth(mods: Mods, esc: string -> string) returns (out: string)
    ensures out == ContentWidthCss(mods, esc)
  {
    var stored := GetThemeMod(mods, "content_width", Int(45));
    var contentWidth := ToInt(stored);
    if !ToBool(Int(contentWidth as Int64)) {
      contentWidth := 45;
    }
    assert contentWidth == Width(mods) by {
      assert ToInt(stored) == ToInt(GetThemeMod(mods, "content_width", Int(45)));
    }
    var value := esc("" + IntToDecimal(contentWidth) + "rem");
    assert value == WidthPair(mods, esc).1 by {
      assert "" + IntToDecimal(contentWidth) + "rem" == IntToDecimal(Width(mods)) + "rem";
    }
    out := ":root{--content-width:" + value + ";}";
    assert out == ContentWidthCss(mods, esc) by {
      WidthBlock(value);
      Css.DeclsSingle(WidthPair(mods, esc));
    }
  }

  /** The literal block the printer formats is the one-declaration block of its value. */
  lemma WidthBlock(value: string)
    ensures ":root{--content-width:" + value + ";}" == Css.Root(Css.Decl("content-width", value))
  {
    Css.RootOfDecl("content-width", value);
    assert ":root{--content-width:" == ":root{--" + "content-width" + ":";
  }

  /** With nothing stored the width is 45. */
  lemma WidthDefault(mods: Mods)
    requires "content_width" !in mods
    ensures Width(mods) == 45
  {
  }

  /**
   * Any non-zero stored width that fits an int, as an int or as its decimal
   * string, is used as it is: the printer does not clamp it to the control's
   * 32..70 range.
   */
  lemma WidthUnclamped(mods: Mods, n: int)
    requires n != 0 && InIntRange(n)
    requires "content_width" in mods && mods["content_width"] in {Int(n as Int64), Str(IntToDecimal(n))}
    ensures Width(mods) == n
  {
    DecimalRoundTrip(n);
  }

  /** A stored run of digits beyond PHP_INT_MAX, but within the double range, gives the width PHP_INT_MAX. */
  lemma WidthSaturates(mods: Mods, d: string)
    requires "content_width" in mods && mods["content_width"] == Str(d)
    requires AllDigits(d) && d != [] && IntMax < DigitsValue(d) < DoubleOverflow
    ensures Width(mods) == IntMax
  {
    SaturatingCast(d, []);
    assert d + [] == d;
  }

  /** A stored run of digits beyond the double range casts to 0, so the width falls back to 45. */
  lemma WidthOverflowFallsBack(mods: Mods, d: string)
    requires "content_width" in mods && mods["content_width"] == Str(d)
    requires AllDigits(d) && d != [] && DigitsValue(d) >= DoubleOverflow
    ensures Width(mods) == 45
  {
    OverflowingCast(d, []);
    assert d + [] == d;
  }

  /** A stored value that casts to 0 (0, "0", "", a string without leading digits) gives 45. */
  lemma WidthZeroFallback(mods: Mods)
    requires ToInt(GetThemeMod(mods, "content_width", Int(45))) == 0
    ensures Width(mods) == 45
  {
  }

  /**
   * The printed block reads back as one `content-width` declaration, and
   * when the escaper leaves the value alone its (int) cast is the width.
   */
  lemma ContentWidthDeclaration(mods: Mods, esc: string -> string)
    requires ';' !in esc(IntToDecimal(Width(mods)) + "rem")
    ensures Css.ParseRoot(ContentWidthCss(mods, esc)) == Some([("content-width", esc(IntToDecimal(Width(mods)) + "rem"))])
    ensures esc(IntToDecimal(Width(mods)) + "rem") == IntToDecimal(Width(mods)) + "rem"
            ==> ToInt(Str(WidthPair(mods, esc).1)) == Width(mods)
  {
    Css.ParseRootRoundTrip([WidthPair(mods, esc)]);
    DecimalThenRoundTrip(Width(mods), "rem");
  }

  /** The block editor settings: the list of editor styles and every other setting. */
  datatype EditorSettings = EditorSettings(styles: seq<Dict.Dict<string>>, others: Dict.Dict<Value>)

  /**
   * filter_block_editor_settings_custom_properties_content_width: one style
   * `{css: <block>}` is appended; the earlier styles and the other settings
   * are kept as they are.
   */
  method FilterBlockEditorSettings(settings: EditorSettings, mods: Mods, esc: string -> string)
    returns (r: EditorSettings)
    ensures |r.styles| == |settings.styles| + 1
    ensures r.styles[..|settings.styles|] == settings.styles
    ensures r.styles[|settings.styles|] == [("css", ContentWidthCss(mods, esc))]
    ensures r.others == settings.others
  {
    var css := PrintCssCustomPropertiesContentWidth(mods, esc);
    r := settings.(styles := settings.styles + [[("css", css)]]);
  }
}
