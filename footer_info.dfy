/**
 * inc/Footer_Info/Component.php: the footer info message, its default and
 * its fallback; and the Customizer's `footer_info` setting, which replaces
 * the message through the `wp_rig_footer_info` filter
 * (inc/Customizer/Footer_Info.php).
 */
module FooterInfo {
  import opened Php
  import opened Host

  /**
   * The default message: the WordPress link, the separator and the theme
   * credit, in that order. `escUrl` stands for esc_url.
   */
  function DefaultFooterInfo(escUrl: string -> string): string
  {
    "<a href=\"" + escUrl("https://wordpress.org/") + "\">" + "Proudly powered by WordPress" + "</a>"
    + "<span class=\"sep\"> | </span>"
    + "Theme: <a href=\"" + escUrl("https://github.com/wprig/wprig/") + "\">WP Rig</a>"
  }

  /** The default is never a message PHP counts as empty. */
  lemma DefaultFooterInfoNotEmpty(escUrl: string -> string)
    ensures ToBool(Str(DefaultFooterInfo(escUrl)))
  {
    var d := DefaultFooterInfo(escUrl);
    assert d[0] == '<';
  }

  /**
   * The message display_footer_info prints: the filtered message, cast to
   * string, unless that is empty ('' or '0'), in which case the default.
   */
  function FooterInfoMessage(chain: seq<(Value, ()) -> Value>, escUrl: string -> string): (r: string)
    ensures ToBool(Str(r))
    ensures var filtered := ToStr(ApplyFilters(chain, Str(DefaultFooterInfo(escUrl)), ()));
            r == if filtered == "" || filtered == "0" then DefaultFooterInfo(escUrl) else filtered
  {
    DefaultFooterInfoNotEmpty(escUrl);
    var filtered := ToStr(ApplyFilters(chain, Str(DefaultFooterInfo(escUrl)), ()));
    if IsEmpty(Str(filtered)) then DefaultFooterInfo(escUrl) else filtered
  }

  const Open: string := "<span class=\"site-footer-info\">"
  const Close: string := "</span>"

  /** What display_footer_info echoes; `kses` stands for wp_kses with the `footer_info` context. */
  function FooterInfoOutput(chain: seq<(Value, ()) -> Value>, escUrl: string -> string, kses: string -> string): (r: string)
    ensures |r| == |Open| + |kses(FooterInfoMessage(chain, escUrl))| + |Close|
    ensures r[..|Open|] == Open && r[|r| - |Close|..] == Close
    ensures r[|Open|..|r| - |Close|] == kses(FooterInfoMessage(chain, escUrl))
  {
    var body := kses(FooterInfoMessage(chain, escUrl));
    var r := Open + body + Close;
    assert r[..|Open|] == Open;
    assert r[|Open|..|r| - |Close|] == body;
    r
  }

  /** display_footer_info. */
  method DisplayFooterInfo(chain: seq<(Value, ()) -> Value>, escUrl: string -> string, kses: string -> string)
    returns (out: string)
    ensures out == FooterInfoOutput(chain, escUrl, kses)
  {
    var defaultFooterInfo := "<a href=\"" + escUrl("https://wordpress.org/") + "\">";
    defaultFooterInfo := defaultFooterInfo + "Proudly powered by WordPress";
    defaultFooterInfo := defaultFooterInfo + "</a>";
    defaultFooterInfo := defaultFooterInfo + "<span class=\"sep\"> | </span>";
    defaultFooterInfo := defaultFooterInfo + ("Theme: <a href=\"" + escUrl("https://github.com/wprig/wprig/") + "\">WP Rig</a>");
    assert defaultFooterInfo == DefaultFooterInfo(escUrl);
    var footerInfo := defaultFooterInfo;
    footerInfo := ToStr(ApplyFilters(chain, Str(footerInfo), ()));
    if IsEmpty(Str(footerInfo)) {
      footerInfo := defaultFooterInfo;
    }
    out := "<span class=\"site-footer-info\">" + kses(footerInfo) + "</span>";
  }

  /** filter_wp_rig_footer_info: the stored `footer_info`, cast to string, '' when nothing is stored. */
  function CustomizerFooterInfoFilter(mods: Mods): (Value, ()) -> Value
  {
    (v: Value, u: ()) => Str(ToStr(GetThemeMod(mods, "footer_info", Str(""))))
  }

  /**
   * With the Customizer's filter the stored message is shown, unless it is
   * empty or nothing is stored, in which case the default is shown.
   */
  lemma CustomizerFooterInfo(mods: Mods, escUrl: string -> string)
    ensures var stored := ToStr(GetThemeMod(mods, "footer_info", Str("")));
            FooterInfoMessage([CustomizerFooterInfoFilter(mods)], escUrl)
            == if IsEmpty(Str(stored)) then DefaultFooterInfo(escUrl) else stored
    ensures "footer_info" !in mods ==> FooterInfoMessage([CustomizerFooterInfoFilter(mods)], escUrl) == DefaultFooterInfo(escUrl)
  {
    var f := CustomizerFooterInfoFilter(mods);
    var chain := [f];
    var seed := Str(DefaultFooterInfo(escUrl));
    assert chain[1..] == [];
    assert ApplyFilters(chain, seed, ()) == f(seed, ());
    assert f(seed, ()) == Str(ToStr(GetThemeMod(mods, "footer_info", Str(""))));
  }
}
