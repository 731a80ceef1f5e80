/**
 * What inc/Customizer/Colors.php and inc/Customizer/Component.php share:
 * a colour setting (setting name, CSS property, default), its resolved value,
 * the editor-palette override and the declaration loop of the printers.
 */
module ColorSettings {
  import opened Php
  import opened Host
  import Css
  import Dict

  datatype ColorData = ColorData(setting: string, cssProperty: string, default: string)

  /** One entry of the block editor's colour palette. */
  datatype PaletteEntry = PaletteEntry(name: string, slug: string, color: Value)

  /** get_theme_mod($setting, $default) for one colour. */
  function Resolved(mods: Mods, c: ColorData): Value
  {
    GetThemeMod(mods, c.setting, Str(c.default))
  }

  /** The palette slug of a colour: its CSS property with `color-` removed. */
  function Slug(c: ColorData): string
  {
    StrReplace("color-", "", c.cssProperty)
  }

  /** A string that lacks one character of `needle` does not contain `needle`. */
  lemma MissingCharNotContained(s: string, needle: string, c: char)
    requires c in needle && c !in s
    ensures !Contains(s, needle)
  {
  }

  /** `color-<rest>` has slug `<rest>` when `<rest>` does not itself contain `color-`. */
  lemma SlugOfPrefixed(c: ColorData, rest: string)
    requires c.cssProperty == "color-" + rest && !Contains(rest, "color-")
    ensures Slug(c) == rest
  {
    var s := c.cssProperty;
    assert OccursAt(s, "color-", 0);
    assert s[6..] == rest;
    StrReplaceAbsent("color-", "", rest);
  }

  /**
   * The slug => value array the palette filter builds first; a later colour
   * with the same slug overwrites an earlier one.
   */
  function CustomColorValues(colors: seq<ColorData>, mods: Mods): Dict.Dict<Value>
  {
    if colors == [] then []
    else
      var c := colors[|colors| - 1];
      Dict.Put(CustomColorValues(colors[..|colors| - 1], mods), Slug(c), Resolved(mods, c))
  }

  /** The keys of the slug => value array are exactly the slugs of the table. */
  lemma {:induction false} CustomColorValuesKeys(colors: seq<ColorData>, mods: Mods, k: string)
    ensures Dict.HasKey(CustomColorValues(colors, mods), k) <==> exists i :: 0 <= i < |colors| && Slug(colors[i]) == k
  {
    if colors != [] {
      var init, c := colors[..|colors| - 1], colors[|colors| - 1];
      CustomColorValuesKeys(init, mods, k);
      if exists i :: 0 <= i < |colors| && Slug(colors[i]) == k {
        var i :| 0 <= i < |colors| && Slug(colors[i]) == k;
        if i < |init| {
          assert Slug(init[i]) == k;
        }
      }
      if exists i :: 0 <= i < |init| && Slug(init[i]) == k {
        var i :| 0 <= i < |init| && Slug(init[i]) == k;
        assert Slug(colors[i]) == k;
      }
      assert colors[|colors| - 1] == c;
      Dict.PutHasKey(CustomColorValues(init, mods), Slug(c), Resolved(mods, c), k);
    }
  }

  /** A slug that no later colour repeats holds that colour's resolved value. */
  lemma {:induction false} CustomColorValuesAt(colors: seq<ColorData>, mods: Mods, i: nat)
    requires i < |colors|
    requires forall j :: i < j < |colors| ==> Slug(colors[j]) != Slug(colors[i])
    ensures Dict.Get(CustomColorValues(colors, mods), Slug(colors[i])) == Some(Resolved(mods, colors[i]))
  {
    var init, c := colors[..|colors| - 1], colors[|colors| - 1];
    var prev := CustomColorValues(init, mods);
    assert CustomColorValues(colors, mods) == Dict.Put(prev, Slug(c), Resolved(mods, c));
    if i < |colors| - 1 {
      assert init[i] == colors[i];
      CustomColorValuesAt(init, mods, i);
      assert Slug(c) != Slug(colors[i]);
    }
  }

  /** The palette entry after the override: only its colour may change. */
  function Override(entry: PaletteEntry, values: Dict.Dict<Value>): PaletteEntry
  {
    if Dict.IsSet(values, entry.slug) then entry.(color := Dict.Get(values, entry.slug).value) else entry
  }

  /** filter_wprig_editor_color_palette as a function of the incoming palette. */
  function OverriddenPalette(colors: seq<ColorData>, mods: Mods, palette: seq<PaletteEntry>): (r: seq<PaletteEntry>)
    ensures |r| == |palette|
    ensures forall i :: 0 <= i < |palette| ==> r[i].name == palette[i].name && r[i].slug == palette[i].slug
    ensures forall i :: 0 <= i < |palette| ==>
              r[i].color == if Dict.IsSet(CustomColorValues(colors, mods), palette[i].slug)
                            then Dict.Get(CustomColorValues(colors, mods), palette[i].slug).value
                            else palette[i].color
  {
    var values := CustomColorValues(colors, mods);
    seq(|palette|, i requires 0 <= i < |palette| => Override(palette[i], values))
  }

  /** The first loop of the palette filter: the slug => value array. */
  method CollectCustomColorValues(colors: seq<ColorData>, mods: Mods) returns (values: Dict.Dict<Value>)
    ensures values == CustomColorValues(colors, mods)
  {
    values := [];
    var n := 0;
    while n < |colors|
      invariant 0 <= n <= |colors|
      invariant values == CustomColorValues(colors[..n], mods)
    {
      assert colors[..n + 1][..n] == colors[..n];
      values := Dict.Put(values, Slug(colors[n]), Resolved(mods, colors[n]));
      n := n + 1;
    }
    assert colors[..n] == colors;
  }

  /** The second loop of the palette filter: in place, the colour of every entry whose slug has a value. */
  method OverrideColors(palette: seq<PaletteEntry>, values: Dict.Dict<Value>) returns (r: seq<PaletteEntry>)
    ensures |r| == |palette|
    ensures forall j :: 0 <= j < |palette| ==> r[j] == Override(palette[j], values)
  {
    r := palette;
    var i := 0;
    while i < |r|
      invariant 0 <= i <= |r| == |palette|
      invariant forall j :: 0 <= j < i ==> r[j] == Override(palette[j], values)
      invariant forall j :: i <= j < |r| ==> r[j] == palette[j]
    {
      if Dict.IsSet(values, r[i].slug) {
        r := r[i := r[i].(color := Dict.Get(values, r[i].slug).value)];
      }
      i := i + 1;
    }
  }

  /**
   * The palette filter: first the slug => value array, then, in place, the
   * colour of every palette entry whose slug has a value.
   */
  method FilterEditorColorPalette(colors: seq<ColorData>, mods: Mods, palette: seq<PaletteEntry>)
    returns (r: seq<PaletteEntry>)
    ensures r == OverriddenPalette(colors, mods, palette)
  {
    var values := CollectCustomColorValues(colors, mods);
    r := OverrideColors(palette, values);
  }

  /** Running the palette filter twice gives what running it once gives. */
  lemma OverrideIdempotent(colors: seq<ColorData>, mods: Mods, palette: seq<PaletteEntry>)
    ensures OverriddenPalette(colors, mods, OverriddenPalette(colors, mods, palette))
         == OverriddenPalette(colors, mods, palette)
  {
    var once := OverriddenPalette(colors, mods, palette);
    var twice := OverriddenPalette(colors, mods, once);
    forall i | 0 <= i < |palette| ensures twice[i] == once[i] {
      assert once[i].slug == palette[i].slug;
    }
  }

  /** The (property, value) pair one colour prints, after the escaper. */
  function ColorPairs(colors: seq<ColorData>, mods: Mods, esc: string -> string): seq<(string, string)>
  {
    seq(|colors|, i requires 0 <= i < |colors| => (esc(colors[i].cssProperty), esc(ToStr(Resolved(mods, colors[i])))))
  }

  /** The printers' loop: one declaration per colour, in table order. */
  method EmitColorDeclarations(colors: seq<ColorData>, mods: Mods, esc: string -> string) returns (out: string)
    ensures out == Css.Decls(ColorPairs(colors, mods, esc))
  {
    ghost var pairs := ColorPairs(colors, mods, esc);
    out := "";
    var i := 0;
    while i < |colors|
      invariant 0 <= i <= |colors|
      invariant out == Css.Decls(pairs[..i])
    {
      var value := GetThemeMod(mods, colors[i].setting, Str(colors[i].default));
      Css.DeclsPrefixSnoc(pairs, i);
      out := out + Css.Decl(esc(colors[i].cssProperty), esc(ToStr(value)));
      i := i + 1;
    }
    Css.DeclsWhole(pairs);
  }

  /** The settings names of a table, in order. */
  function Settings(colors: seq<ColorData>): seq<string>
  {
    seq(|colors|, i requires 0 <= i < |colors| => colors[i].setting)
  }

  /** The partial-settings loop: every colour's setting appended, in order. */
  method CollectSettings(initial: seq<string>, colors: seq<ColorData>) returns (settings: seq<string>)
    ensures |settings| == |initial| + |colors|
    ensures settings[..|initial|] == initial
    ensures forall i :: 0 <= i < |colors| ==> settings[|initial| + i] == colors[i].setting
  {
    settings := initial;
    var i := 0;
    while i < |colors|
      invariant 0 <= i <= |colors|
      invariant |settings| == |initial| + i
      invariant settings[..|initial|] == initial
      invariant forall j :: 0 <= j < i ==> settings[|initial| + j] == colors[j].setting
    {
      settings := settings + [colors[i].setting];
      i := i + 1;
    }
  }

  /** No setting name occurs twice in the table. */
  predicate DistinctSettings(colors: seq<ColorData>)
  {
    forall i, j :: 0 <= i < j < |colors| ==> colors[i].setting != colors[j].setting
  }

  /** Two tables without repeated settings, and with no setting in both, join into one without repeats. */
  lemma DistinctAppend(a: seq<ColorData>, b: seq<ColorData>)
    requires DistinctSettings(a) && DistinctSettings(b)
    requires forall i, j :: 0 <= i < |a| && 0 <= j < |b| ==> a[i].setting != b[j].setting
    ensures DistinctSettings(a + b)
  {
    var ab := a + b;
    forall i, j | 0 <= i < j < |ab| ensures ab[i].setting != ab[j].setting {
      if j < |a| {
        assert ab[i] == a[i] && ab[j] == a[j];
      } else if i < |a| {
        assert ab[i] == a[i] && ab[j] == b[j - |a|];
      } else {
        assert ab[i] == b[i - |a|] && ab[j] == b[j - |a|];
      }
    }
  }
}
