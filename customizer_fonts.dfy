/**
 * inc/Customizer/Fonts.php: the three font settings, the system and Google
 * font tables, the Google-font selection filter, quoting of family names and
 * the `:root{...}` printer of the font custom properties.
 */
module CustomizerFonts {
  import opened Php
  import opened Host
  import Css
  import Dict

  datatype FontData = FontData(setting: string, cssProperty: string, default: string)

  /** A font table entry: its weights (Google fonts only) and fallback families. */
  datatype FontInfo = FontInfo(weight: Option<seq<string>>, fallback: Option<seq<string>>)

  /** get_fonts. */
  function GetFonts(): seq<FontData>
  {
    [
      FontData("global_font_family", "global-font-family", "Crimson Text"),
      FontData("branding_font_family", "branding-font-family", "Roboto Condensed"),
      FontData("highlight_font_family", "highlight-font-family", "Roboto Condensed")
    ]
  }

  /** get_available_system_fonts. */
  function SystemFonts(): Dict.Dict<FontInfo>
  {
    [
      ("Arial", FontInfo(None, Some(["sans-serif"]))),
      ("Georgia", FontInfo(None, Some(["serif"]))),
      ("Helvetica", FontInfo(None, Some(["sans-serif"]))),
      ("Times New Roman", FontInfo(None, Some(["serif"])))
    ]
  }

  /** The keys of get_available_google_fonts, in table order. */
  function GoogleFamilies(): seq<string>
  {
    [
      "Abril Fatface",
      "Anton",
      "Arvo",
      "Asap",
      "Barlow Condensed",
      "Barlow",
      "Cormorant Garamond",
      "Crimson Text",
      "Faustina",
      "Fira Sans",
      "IBM Plex Sans",
      "Inconsolata",
      "Heebo",
      "Karla",
      "Lato",
      "Lora",
      "Merriweather",
      "Montserrat",
      "Noto Sans",
      "Noto Serif",
      "Open Sans",
      "Oswald",
      "Playfair Display",
      "PT Serif",
      "Roboto Condensed",
      "Roboto",
      "Rubik",
      "Tajawal",
      "Ubuntu",
      "Yrsa"
    ]
  }

  /** The values of get_available_google_fonts, in the same order. */
  function GoogleFontInfo(): seq<FontInfo>
  {
    [
      FontInfo(Some(["400"]), Some(["serif"])),
      FontInfo(Some(["400"]), Some(["sans-serif"])),
      FontInfo(Some(["400", "700"]), Some(["serif"])),
      FontInfo(Some(["400", "500", "600", "700"]), Some(["sans-serif"])),
      FontInfo(Some(["100", "200", "300", "400", "500", "600", "700", "800", "900"]), Some(["sans-serif"])),
      FontInfo(Some(["100", "200", "300", "400", "500", "600", "700", "800", "900"]), Some(["sans-serif"])),
      FontInfo(Some(["300", "400", "500", "600", "700"]), Some(["serif"])),
      FontInfo(Some(["400", "600", "700"]), Some(["serif"])),
      FontInfo(Some(["400", "500", "600", "700"]), Some(["serif"])),
      FontInfo(Some(["100", "200", "300", "400", "500", "600", "700", "800", "900"]), Some(["sans-serif"])),
      FontInfo(Some(["100", "200", "300", "400", "500", "600", "700"]), Some(["sans-serif"])),
      FontInfo(Some(["400", "700"]), Some(["monospace"])),
      FontInfo(Some(["100", "200", "300", "400", "500", "600", "700", "800", "900"]), Some(["sans-serif"])),
      FontInfo(Some(["400", "700"]), Some(["sans-serif"])),
      FontInfo(Some(["100", "200", "300", "400", "500", "600", "700", "800", "900"]), Some(["sans-serif"])),
      FontInfo(Some(["400", "700"]), Some(["serif"])),
      FontInfo(Some(["300", "400", "500", "600", "700", "800", "900"]), Some(["serif"])),
      FontInfo(Some(["100", "200", "300", "400", "500", "600", "700", "800", "900"]), Some(["sans-serif"])),
      FontInfo(Some(["400", "700"]), Some(["sans-serif"])),
      FontInfo(Some(["400", "700"]), Some(["serif"])),
      FontInfo(Some(["300", "400", "500", "600", "700", "800"]), Some(["sans-serif"])),
      FontInfo(Some(["200", "300", "400", "500", "600", "700"]), Some(["sans-serif"])),
      FontInfo(Some(["400", "700", "900"]), Some(["serif"])),
      FontInfo(Some(["400", "700"]), Some(["serif"])),
      FontInfo(Some(["300", "400", "700"]), Some(["sans-serif"])),
      FontInfo(Some(["100", "300", "400", "500", "700", "900"]), Some(["sans-serif"])),
      FontInfo(Some(["300", "400", "500", "700", "900"]), Some(["sans-serif"])),
      FontInfo(Some(["200", "300", "400", "500", "700", "800", "900"]), Some(["sans-serif"])),
      FontInfo(Some(["300", "400", "500", "700"]), Some(["sans-serif"])),
      FontInfo(Some(["300", "400", "500", "600", "700"]), Some(["serif"]))
    ]
  }

  /** get_available_google_fonts: each family with its weights and fallbacks. */
  function GoogleFonts(): (r: Dict.Dict<FontInfo>)
    ensures |r| == |GoogleFamilies()| == |GoogleFontInfo()| == 30
    ensures forall i :: 0 <= i < |r| ==> r[i] == (GoogleFamilies()[i], GoogleFontInfo()[i])
  {
    seq(30, i requires 0 <= i < 30 => (GoogleFamilies()[i], GoogleFontInfo()[i]))
  }

  /** The Google table, a PHP array literal, names each family once. */
  lemma GoogleFontsUnique()
    ensures Dict.UniqueKeys(GoogleFonts())
  {
    var families := GoogleFamilies();
    assert forall i, j :: 0 <= i < j < |families| ==> families[i] != families[j];
  }

  /** No system font is a Google font. */
  lemma SystemFontsNotGoogle()
    ensures forall k :: Dict.HasKey(SystemFonts(), k) ==> !Dict.HasKey(GoogleFonts(), k)
  {
    var families := GoogleFamilies();
    assert forall i :: 0 <= i < |families| ==> families[i] != "Arial";
    assert forall i :: 0 <= i < |families| ==> families[i] != "Georgia";
    assert forall i :: 0 <= i < |families| ==> families[i] != "Helvetica";
    assert forall i :: 0 <= i < |families| ==> families[i] != "Times New Roman";
  }

  /** array_merge( get_available_system_fonts(), get_available_google_fonts() ). */
  function AvailableFonts(): Dict.Dict<FontInfo>
  {
    GoogleFontsUnique();
    Dict.Merge(SystemFonts(), GoogleFonts())
  }

  // ---------------------------------------------------------------------------
  // Google-font selection

  function NecessaryWeights(): seq<string>
  {
    ["400", "500", "700", "900"]
  }

  /**
   * The weights a family is loaded with: its own weights among 400, 500,
   * 700, 900, in its own order and multiplicity, or 400 and 700.
   */
  function Weights(info: FontInfo): (r: seq<string>)
    ensures forall w :: w in r ==> w in NecessaryWeights()
    ensures info.weight.Some? ==> r == Intersect(info.weight.value, NecessaryWeights())
    ensures info.weight.Some? ==> forall w :: w in r <==> w in info.weight.value && w in NecessaryWeights()
    ensures info.weight.Some? ==> forall w :: multiset(r)[w] == if w in NecessaryWeights() then multiset(info.weight.value)[w] else 0
    ensures info.weight.None? ==> r == ["400", "700"]
  {
    match info.weight
    case Some(w) => IntersectCount(w, NecessaryWeights()); Intersect(w, NecessaryWeights())
    case None => ["400", "700"]
  }

  /** Each weight followed by its italic form. */
  function Variants(weights: seq<string>): (r: seq<string>)
    ensures |r| == 2 * |weights|
    ensures forall i :: 0 <= i < |weights| ==> r[2 * i] == weights[i] && r[2 * i + 1] == weights[i] + "i"
  {
    if weights == [] then []
    else
      var rest := Variants(weights[1..]);
      assert forall i :: 1 <= i < |weights| ==> rest[2 * (i - 1)] == weights[i] && rest[2 * (i - 1) + 1] == weights[i] + "i";
      [weights[0], weights[0] + "i"] + rest
  }

  lemma {:induction false} VariantsSnoc(weights: seq<string>, w: string)
    ensures Variants(weights + [w]) == Variants(weights) + [w, w + "i"]
  {
    if weights == [] {
      assert [w][1..] == [];
    } else {
      assert (weights + [w])[1..] == weights[1..] + [w];
      VariantsSnoc(weights[1..], w);
    }
  }

  /** The inner loop of the filter: one weight and one italic variant per weight. */
  method FontVariants(weights: seq<string>) returns (variants: seq<string>)
    ensures variants == Variants(weights)
  {
    variants := [];
    var i := 0;
    while i < |weights|
      invariant 0 <= i <= |weights|
      invariant variants == Variants(weights[..i])
    {
      VariantsSnoc(weights[..i], weights[i]);
      assert weights[..i + 1] == weights[..i] + [weights[i]];
      variants := variants + [weights[i], weights[i] + "i"];
      i := i + 1;
    }
    assert weights[..i] == weights;
  }

  /** The stored or default value of each font setting, in table order. */
  function ChosenValues(fonts: seq<FontData>, mods: Mods): seq<Value>
  {
    seq(|fonts|, i requires 0 <= i < |fonts| => GetThemeMod(mods, fonts[i].setting, Str(fonts[i].default)))
  }

  /**
   * One step of the selection: a family of the Google table `google` that
   * is not yet selected is added with its variants.
   */
  function SelectStep(google: Dict.Dict<FontInfo>, selected: Dict.Dict<seq<string>>, value: Value): Dict.Dict<seq<string>>
  {
    var family := KeyOf(value);
    if Dict.HasKey(google, family) && !Dict.HasKey(selected, family)
    then Dict.Put(selected, family, Variants(Weights(Dict.Get(google, family).value)))
    else selected
  }

  /** The selection over the chosen values, in order. */
  function SelectFonts(google: Dict.Dict<FontInfo>, values: seq<Value>): Dict.Dict<seq<string>>
  {
    if values == [] then [] else SelectStep(google, SelectFonts(google, values[..|values| - 1]), values[|values| - 1])
  }

  lemma SelectFontsSnoc(google: Dict.Dict<FontInfo>, values: seq<Value>, value: Value)
    ensures SelectFonts(google, values + [value]) == SelectStep(google, SelectFonts(google, values), value)
  {
    assert (values + [value])[..|values|] == values;
  }

  /** The body of the selection loop: one chosen value. */
  method AddGoogleFamily(google: Dict.Dict<FontInfo>, selected: Dict.Dict<seq<string>>, value: Value)
    returns (r: Dict.Dict<seq<string>>)
    ensures r == SelectStep(google, selected, value)
  {
    r := selected;
    var family := KeyOf(value);
    if Dict.HasKey(google, family) && !Dict.HasKey(r, family) {
      var weights := Weights(Dict.Get(google, family).value);
      var variants := FontVariants(weights);
      r := Dict.Put(r, family, variants);
    }
  }

  /** The selection loop of filter_wprig_google_fonts over the font settings `fonts` and the Google table `google`. */
  method SelectGoogleFonts(google: Dict.Dict<FontInfo>, fonts: seq<FontData>, mods: Mods) returns (r: Dict.Dict<seq<string>>)
    ensures r == SelectFonts(google, ChosenValues(fonts, mods))
  {
    r := [];
    var i := 0;
    while i < |fonts|
      invariant 0 <= i <= |fonts|
      invariant r == SelectFonts(google, ChosenValues(fonts[..i], mods))
    {
      var value := GetThemeMod(mods, fonts[i].setting, Str(fonts[i].default));
      ChosenValuesSnoc(fonts, mods, i);
      SelectFontsSnoc(google, ChosenValues(fonts[..i], mods), value);
      r := AddGoogleFamily(google, r, value);
      i := i + 1;
    }
    assert fonts[..i] == fonts;
  }

  lemma ChosenValuesSnoc(fonts: seq<FontData>, mods: Mods, i: nat)
    requires i < |fonts|
    ensures ChosenValues(fonts[..i + 1], mods)
         == ChosenValues(fonts[..i], mods) + [GetThemeMod(mods, fonts[i].setting, Str(fonts[i].default))]
  {
  }

  /**
   * filter_wprig_google_fonts. The incoming list is discarded: the result
   * depends only on the stored font settings.
   */
  method FilterGoogleFonts(googleFonts: Dict.Dict<seq<string>>, mods: Mods) returns (r: Dict.Dict<seq<string>>)
    ensures r == SelectFonts(GoogleFonts(), ChosenValues(GetFonts(), mods))
  {
    r := SelectGoogleFonts(GoogleFonts(), GetFonts(), mods);
  }

  /** A family is selected iff it is a Google family that one of the values names. */
  lemma {:induction false} SelectedFamilies(google: Dict.Dict<FontInfo>, values: seq<Value>, family: string)
    ensures Dict.HasKey(SelectFonts(google, values), family)
        <==> Dict.HasKey(google, family) && exists i :: 0 <= i < |values| && KeyOf(values[i]) == family
  {
    if values != [] {
      var init, v := values[..|values| - 1], values[|values| - 1];
      var before := SelectFonts(google, init);
      SelectedFamilies(google, init, family);
      var inInit := exists i :: 0 <= i < |init| && KeyOf(init[i]) == family;
      var inValues := exists i :: 0 <= i < |values| && KeyOf(values[i]) == family;
      assert inValues <==> inInit || KeyOf(v) == family by {
        if inInit {
          var i :| 0 <= i < |init| && KeyOf(init[i]) == family;
          assert values[i] == init[i];
        }
        if inValues {
          var i :| 0 <= i < |values| && KeyOf(values[i]) == family;
          if i < |init| {
            assert init[i] == values[i];
          }
        }
      }
      var k := KeyOf(v);
      if Dict.HasKey(google, k) && !Dict.HasKey(before, k) {
        var after := Dict.Put(before, k, Variants(Weights(Dict.Get(google, k).value)));
        assert SelectFonts(google, values) == after;
        assert Dict.HasKey(after, family) <==> family == k || Dict.HasKey(before, family) by {
          if family != k {
            assert Dict.Get(after, family) == Dict.Get(before, family);
          }
        }
      } else {
        assert SelectFonts(google, values) == before;
      }
    }
  }

  /** No family is selected twice, and each selected family carries its variants. */
  lemma {:induction false} SelectedOnceWithVariants(google: Dict.Dict<FontInfo>, values: seq<Value>)
    ensures Dict.UniqueKeys(SelectFonts(google, values))
    ensures forall family :: Dict.HasKey(SelectFonts(google, values), family) ==>
              Dict.HasKey(google, family)
              && Dict.Get(SelectFonts(google, values), family) == Some(Variants(Weights(Dict.Get(google, family).value)))
  {
    if values != [] {
      var init, v := values[..|values| - 1], values[|values| - 1];
      SelectedOnceWithVariants(google, init);
      var before, k := SelectFonts(google, init), KeyOf(v);
      if Dict.HasKey(google, k) && !Dict.HasKey(before, k) {
        var variants := Variants(Weights(Dict.Get(google, k).value));
        forall family | Dict.HasKey(Dict.Put(before, k, variants), family)
          ensures Dict.HasKey(google, family)
          ensures Dict.Get(Dict.Put(before, k, variants), family) == Some(Variants(Weights(Dict.Get(google, family).value)))
        {
          Dict.PutHasKey(before, k, variants, family);
        }
      }
    }
  }

  /** System fonts such as Arial are never selected. */
  lemma SystemFontsNeverSelected(values: seq<Value>, family: string)
    requires Dict.HasKey(SystemFonts(), family)
    ensures !Dict.HasKey(SelectFonts(GoogleFonts(), values), family)
  {
    SystemFontsNotGoogle();
    SelectedFamilies(GoogleFonts(), values, family);
  }

  /** The Google table's entry for the default body font. */
  lemma CrimsonTextEntry()
    ensures Dict.Get(GoogleFonts(), "Crimson Text") == Some(FontInfo(Some(["400", "600", "700"]), Some(["serif"])))
  {
    GoogleFontsUnique();
    Dict.GetAt(GoogleFonts(), 7);
    assert GoogleFamilies()[7] == "Crimson Text";
  }

  /** The Google table's entry for the default heading and secondary font. */
  lemma RobotoCondensedEntry()
    ensures Dict.Get(GoogleFonts(), "Roboto Condensed") == Some(FontInfo(Some(["300", "400", "700"]), Some(["sans-serif"])))
  {
    GoogleFontsUnique();
    Dict.GetAt(GoogleFonts(), 24);
    assert GoogleFamilies()[24] == "Roboto Condensed";
  }

  /** With nothing stored, every font setting takes its default family. */
  lemma DefaultChosenValues()
    ensures ChosenValues(GetFonts(), map[]) == [Str("Crimson Text"), Str("Roboto Condensed"), Str("Roboto Condensed")]
  {
    var cv := ChosenValues(GetFonts(), map[]);
    assert cv[0] == Str("Crimson Text");
    assert cv[1] == Str("Roboto Condensed");
    assert cv[2] == Str("Roboto Condensed");
  }

  /**
   * With nothing stored, the filter selects the two default families, each
   * once, with their regular and bold weights and italics.
   */
  lemma DefaultSelection()
    ensures SelectFonts(GoogleFonts(), ChosenValues(GetFonts(), map[]))
         == [("Crimson Text", ["400", "400i", "700", "700i"]), ("Roboto Condensed", ["400", "400i", "700", "700i"])]
  {
    CrimsonTextEntry();
    RobotoCondensedEntry();
    DefaultChosenValues();
    SelectionOfDefaults(GoogleFonts());
  }

  /** The three default values against a table that holds the two default families as the Google table does. */
  lemma SelectionOfDefaults(google: Dict.Dict<FontInfo>)
    requires Dict.Get(google, "Crimson Text") == Some(FontInfo(Some(["400", "600", "700"]), Some(["serif"])))
    requires Dict.Get(google, "Roboto Condensed") == Some(FontInfo(Some(["300", "400", "700"]), Some(["sans-serif"])))
    ensures SelectFonts(google, [Str("Crimson Text"), Str("Roboto Condensed"), Str("Roboto Condensed")])
         == [("Crimson Text", ["400", "400i", "700", "700i"]), ("Roboto Condensed", ["400", "400i", "700", "700i"])]
  {
    DefaultWeights(Dict.Get(google, "Crimson Text").value, Dict.Get(google, "Roboto Condensed").value);
    SecondChoiceOnce(google, "Crimson Text", "Roboto Condensed");
  }

  /** Crimson Text is loaded with 400 and 700: 600 is not a necessary weight. */
  lemma CrimsonWeights(crimson: FontInfo)
    requires crimson == FontInfo(Some(["400", "600", "700"]), Some(["serif"]))
    ensures Weights(crimson) == ["400", "700"]
  {
    var ys := NecessaryWeights();
    assert "400" in ys && "600" !in ys && "700" in ys;
    assert Intersect(["700"], ys) == ["700"];
    assert Intersect(["600", "700"], ys) == ["700"];
  }

  /** Roboto Condensed is loaded with 400 and 700: 300 is not a necessary weight. */
  lemma RobotoWeights(roboto: FontInfo)
    requires roboto == FontInfo(Some(["300", "400", "700"]), Some(["sans-serif"]))
    ensures Weights(roboto) == ["400", "700"]
  {
    var ys := NecessaryWeights();
    assert "300" !in ys && "400" in ys && "700" in ys;
    assert Intersect(["700"], ys) == ["700"];
    assert Intersect(["400", "700"], ys) == ["400", "700"];
  }

  /** Regular and bold, each followed by its italic. */
  lemma RegularBoldVariants()
    ensures Variants(["400", "700"]) == ["400", "400i", "700", "700i"]
  {
    assert "400" + "i" == "400i" && "700" + "i" == "700i";
  }

  /** Both default families are loaded with 400 and 700 and their italics. */
  lemma DefaultWeights(crimson: FontInfo, roboto: FontInfo)
    requires crimson == FontInfo(Some(["400", "600", "700"]), Some(["serif"]))
    requires roboto == FontInfo(Some(["300", "400", "700"]), Some(["sans-serif"]))
    ensures Variants(Weights(crimson)) == ["400", "400i", "700", "700i"]
    ensures Variants(Weights(roboto)) == ["400", "400i", "700", "700i"]
  {
    CrimsonWeights(crimson);
    RobotoWeights(roboto);
    RegularBoldVariants();
  }

  /** A family that is already selected is not selected again. */
  lemma SelectStepRepeat(google: Dict.Dict<FontInfo>, selected: Dict.Dict<seq<string>>, family: string)
    requires Dict.HasKey(selected, family)
    ensures SelectStep(google, selected, Str(family)) == selected
  {
  }

  /** A Google family on its own is selected with its variants. */
  lemma SelectOne(google: Dict.Dict<FontInfo>, a: string)
    requires Dict.HasKey(google, a)
    ensures SelectFonts(google, [Str(a)]) == [(a, Variants(Weights(Dict.Get(google, a).value)))]
  {
    SelectFontsSnoc(google, [], Str(a));
    assert [] + [Str(a)] == [Str(a)];
    SelectStepAdds(google, [], a);
  }

  /** Two distinct Google families are selected in the order they are named. */
  lemma SelectTwo(google: Dict.Dict<FontInfo>, a: string, b: string)
    requires a != b && Dict.HasKey(google, a) && Dict.HasKey(google, b)
    ensures SelectFonts(google, [Str(a), Str(b)])
         == [(a, Variants(Weights(Dict.Get(google, a).value))), (b, Variants(Weights(Dict.Get(google, b).value)))]
  {
    var va, vb := Variants(Weights(Dict.Get(google, a).value)), Variants(Weights(Dict.Get(google, b).value));
    var one := SelectFonts(google, [Str(a)]);
    assert one == [(a, va)] by {
      SelectOne(google, a);
    }
    assert SelectFonts(google, [Str(a), Str(b)]) == SelectStep(google, one, Str(b)) by {
      SelectFontsSnoc(google, [Str(a)], Str(b));
      assert [Str(a)] + [Str(b)] == [Str(a), Str(b)];
    }
    assert SelectStep(google, one, Str(b)) == one + [(b, vb)] by {
      SelectStepAdds(google, one, b);
    }
  }

  /** Naming the second family again, as the defaults do, adds nothing. */
  lemma SecondChoiceOnce(google: Dict.Dict<FontInfo>, a: string, b: string)
    requires a != b && Dict.HasKey(google, a) && Dict.HasKey(google, b)
    ensures SelectFonts(google, [Str(a), Str(b), Str(b)])
         == [(a, Variants(Weights(Dict.Get(google, a).value))), (b, Variants(Weights(Dict.Get(google, b).value)))]
  {
    var two := SelectFonts(google, [Str(a), Str(b)]);
    assert Dict.HasKey(two, b) by {
      SelectTwo(google, a, b);
      assert two[1].0 == b;
    }
    assert SelectFonts(google, [Str(a), Str(b), Str(b)]) == SelectStep(google, two, Str(b)) by {
      SelectFontsSnoc(google, [Str(a), Str(b)], Str(b));
      assert [Str(a), Str(b)] + [Str(b)] == [Str(a), Str(b), Str(b)];
    }
    SelectStepRepeat(google, two, b);
    SelectTwo(google, a, b);
  }

  lemma SelectStepAdds(google: Dict.Dict<FontInfo>, selected: Dict.Dict<seq<string>>, family: string)
    requires Dict.HasKey(google, family) && !Dict.HasKey(selected, family)
    ensures SelectStep(google, selected, Str(family)) == selected + [(family, Variants(Weights(Dict.Get(google, family).value)))]
    ensures Dict.HasKey(SelectStep(google, selected, Str(family)), family)
  {
  }

  // ---------------------------------------------------------------------------
  // The printer

  /**
   * quote_font_family: the name in double quotes when strpos finds a space
   * at an index that is truthy, that is at least 1.
   */
  function Quote(family: string): (r: string)
    ensures (|family| > 0 && family[0] != ' ' && ' ' in family) ==> r == "\"" + family + "\""
    ensures !(|family| > 0 && family[0] != ' ' && ' ' in family) ==> r == family
  {
    ContainsChar(family, ' ');
    assert family != [] && family[0] == ' ' ==> OccursAt(family, " ", 0);
    match StrPos(family, " ")
    case Some(i) => if i != 0 then "\"" + family + "\"" else family
    case None => family
  }

  function QuoteAll(families: seq<string>): seq<string>
  {
    seq(|families|, i requires 0 <= i < |families| => Quote(families[i]))
  }

  /**
   * The declaration value before escaping: the quoted family and, for a
   * family of the merged table `available`, its quoted fallbacks.
   */
  function FontOutput(available: Dict.Dict<FontInfo>, value: Value): string
  {
    var output := Quote(ToStr(value));
    match Dict.Get(available, KeyOf(value))
    case Some(info) =>
      if info.fallback.Some? then output + "," + Join(",", QuoteAll(info.fallback.value)) else output
    case None => output
  }

  /** A value in neither table gets no fallback. */
  lemma UnknownFamilyNoFallback(value: Value)
    requires !Dict.HasKey(SystemFonts(), KeyOf(value)) && !Dict.HasKey(GoogleFonts(), KeyOf(value))
    ensures FontOutput(AvailableFonts(), value) == Quote(ToStr(value))
  {
    assert Dict.Get(AvailableFonts(), KeyOf(value)) == Dict.Get(SystemFonts(), KeyOf(value));
  }

  /** A Google family gets its own fallbacks, whatever the system table says. */
  lemma GoogleFamilyFallback(value: Value, info: FontInfo, fallback: seq<string>)
    requires Dict.Get(GoogleFonts(), KeyOf(value)) == Some(info) && info.fallback == Some(fallback)
    ensures FontOutput(AvailableFonts(), value) == Quote(ToStr(value)) + "," + Join(",", QuoteAll(fallback))
  {
  }

  /** The (property, value) pair of one font declaration, after escaping and restoring `&quot;`. */
  function FontPair(available: Dict.Dict<FontInfo>, mods: Mods, font: FontData, esc: string -> string): (string, string)
  {
    (esc(font.cssProperty),
     StrReplace("&quot;", "\"", esc(FontOutput(available, GetThemeMod(mods, font.setting, Str(font.default))))))
  }

  function FontPairs(available: Dict.Dict<FontInfo>, mods: Mods, fonts: seq<FontData>, esc: string -> string): seq<(string, string)>
  {
    seq(|fonts|, i requires 0 <= i < |fonts| => FontPair(available, mods, fonts[i], esc))
  }

  /** What print_css_custom_properties_fonts prints. */
  function FontsCss(available: Dict.Dict<FontInfo>, mods: Mods, esc: string -> string): string
  {
    Css.Root(Css.Decls(FontPairs(available, mods, GetFonts(), esc)))
  }

  /** The quoted value and, when the table has fallbacks for it, the quoted fallbacks. */
  method BuildFontOutput(available: Dict.Dict<FontInfo>, value: Value) returns (output: string)
    ensures output == FontOutput(available, value)
  {
    output := Quote(ToStr(value));
    var entry := Dict.Get(available, KeyOf(value));
    if entry.Some? && entry.value.fallback.Some? {
      output := output + "," + Join(",", QuoteAll(entry.value.fallback.value));
    }
  }

  /** The declaration loop of print_css_custom_properties_fonts over the merged table `available`. */
  method EmitFontDeclarations(available: Dict.Dict<FontInfo>, mods: Mods, fonts: seq<FontData>, esc: string -> string)
    returns (decls: string)
    ensures decls == Css.Decls(FontPairs(available, mods, fonts, esc))
  {
    ghost var pairs := FontPairs(available, mods, fonts, esc);
    decls := "";
    var i := 0;
    while i < |fonts|
      invariant 0 <= i <= |fonts|
      invariant decls == Css.Decls(pairs[..i])
    {
      var value := GetThemeMod(mods, fonts[i].setting, Str(fonts[i].default));
      var output := BuildFontOutput(available, value);
      FontDeclsSnoc(available, mods, fonts, esc, i);
      decls := decls + Css.Decl(esc(fonts[i].cssProperty), StrReplace("&quot;", "\"", esc(output)));
      i := i + 1;
    }
    Css.DeclsWhole(pairs);
  }

  /** The declaration of one more font, after those of the fonts before it. */
  lemma FontDeclsSnoc(available: Dict.Dict<FontInfo>, mods: Mods, fonts: seq<FontData>, esc: string -> string, i: nat)
    requires i < |fonts|
    ensures var pairs := FontPairs(available, mods, fonts, esc);
            Css.Decls(pairs[..i + 1])
            == Css.Decls(pairs[..i])
             + Css.Decl(esc(fonts[i].cssProperty),
                        StrReplace("&quot;", "\"", esc(FontOutput(available, GetThemeMod(mods, fonts[i].setting, Str(fonts[i].default))))))
  {
    var pairs := FontPairs(available, mods, fonts, esc);
    assert pairs[i] == FontPair(available, mods, fonts[i], esc);
    Css.DeclsPrefixSnoc(pairs, i);
  }

  /** print_css_custom_properties_fonts; `esc` stands for esc_attr. */
  method PrintCssCustomPropertiesFonts(mods: Mods, esc: string -> string) returns (out: string)
    ensures out == FontsCss(AvailableFonts(), mods, esc)
  {
    var available := AvailableFonts();
    var decls := EmitFontDeclarations(available, mods, GetFonts(), esc);
    out := ":root{" + decls + "}";
  }

  /** The block reads back as exactly one declaration per font setting, in table order. */
  lemma FontsCssDeclarations(available: Dict.Dict<FontInfo>, mods: Mods, esc: string -> string)
    requires forall i :: 0 <= i < |FontPairs(available, mods, GetFonts(), esc)| ==> Css.Clean(FontPairs(available, mods, GetFonts(), esc)[i])
    ensures Css.ParseRoot(FontsCss(available, mods, esc)) == Some(FontPairs(available, mods, GetFonts(), esc))
    ensures |FontPairs(available, mods, GetFonts(), esc)| == 3
  {
    Css.ParseRootRoundTrip(FontPairs(available, mods, GetFonts(), esc));
  }

  /**
   * Restoring `&quot;` undoes the escaping of double quotes: for an output
   * without `&`, the printed value is the unescaped output.
   */
  lemma QuotesRestored(available: Dict.Dict<FontInfo>, mods: Mods, i: nat)
    requires i < 3
    requires '&' !in FontOutput(available, GetThemeMod(mods, GetFonts()[i].setting, Str(GetFonts()[i].default)))
    ensures FontPairs(available, mods, GetFonts(), EscapeQuotes)[i].1
         == FontOutput(available, GetThemeMod(mods, GetFonts()[i].setting, Str(GetFonts()[i].default)))
  {
    UnescapeQuotesRoundTrip(FontOutput(available, GetThemeMod(mods, GetFonts()[i].setting, Str(GetFonts()[i].default))));
  }
}
