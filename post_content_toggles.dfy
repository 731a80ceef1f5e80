/**
 * inc/Customizer/Post_Content_Toggles.php: per post type theme settings that
 * switch the post meta fields (date, author) and the terms of each public
 * taxonomy on and off, with defaults from the post type.
 */
module PostContentToggles {
  import opened Php
  import opened Host

  /** What the theme reads of a registered post type object besides its name. */
  datatype PostTypeFeatures = PostTypeFeatures(hasArchive: Value, supportsAuthor: bool)

  /** One meta field the Customizer can toggle: its setting and its default. */
  datatype MetaField = MetaField(setting: string, default: Value)

  /** A taxonomy registered for a post type. */
  datatype Taxonomy = Taxonomy(name: string, isPublic: bool)

  /** One taxonomy toggle: its setting and its default. */
  datatype TaxonomyToggle = TaxonomyToggle(setting: string, default: bool)

  /** get_prefix: `post_type_<name>_`. */
  function Prefix(postType: string): (p: string)
    ensures |p| == |postType| + 11
    ensures p[..10] == "post_type_" && p[10..|p| - 1] == postType && p[|p| - 1] == '_'
  {
    "post_type_" + postType + "_"
  }

  /** Different post types have different prefixes. */
  lemma PrefixInjective(a: string, b: string)
    requires Prefix(a) == Prefix(b)
    ensures a == b
  {
    assert a == Prefix(a)[10..|Prefix(a)| - 1];
  }

  /** Two settings with the same prefix are the same setting only for the same suffix. */
  lemma SuffixCancel(p: string, f: string, g: string)
    ensures p + f == p + g <==> f == g
  {
    if p + f == p + g {
      assert f == (p + f)[|p|..];
      assert g == (p + g)[|p|..];
    }
  }

  /** The meta fields get_metadata lists for a post type. */
  function Metadata(postType: string, features: PostTypeFeatures, multiAuthor: bool): seq<MetaField>
  {
    [MetaField(Prefix(postType) + "show_date", Bool(postType == "post" || ToBool(features.hasArchive)))]
    + (if features.supportsAuthor then [MetaField(Prefix(postType) + "show_author", Bool(multiAuthor))] else [])
  }

  /**
   * get_metadata; `features` is the registered post type object and
   * `multiAuthor` stands for is_multi_author(). The date field is always
   * listed; the author field only for types that support authors.
   */
  method GetMetadata(postType: string, features: PostTypeFeatures, multiAuthor: bool) returns (metadata: seq<MetaField>)
    ensures metadata == Metadata(postType, features, multiAuthor)
    ensures |metadata| == if features.supportsAuthor then 2 else 1
    ensures metadata[0].setting == Prefix(postType) + "show_date"
    ensures metadata[0].default == Bool(postType == "post" || ToBool(features.hasArchive))
    ensures features.supportsAuthor ==> metadata[1] == MetaField(Prefix(postType) + "show_author", Bool(multiAuthor))
  {
    var prefix := Prefix(postType);
    metadata := [MetaField(prefix + "show_date", Bool(postType == "post" || ToBool(features.hasArchive)))];
    if features.supportsAuthor {
      metadata := metadata + [MetaField(prefix + "show_author", Bool(multiAuthor))];
    }
  }

  /** The default of the first field with this setting whose default is set (isset), if any. */
  function FindDefault(metadata: seq<MetaField>, setting: string): (r: Option<Value>)
    ensures r.Some? ==> exists i :: 0 <= i < |metadata| && metadata[i].setting == setting
                                    && metadata[i].default == r.value && r.value != Null
    ensures r.None? ==> forall i :: 0 <= i < |metadata| ==> metadata[i].setting != setting || metadata[i].default == Null
  {
    if metadata == [] then None
    else if metadata[0].setting == setting && metadata[0].default != Null then Some(metadata[0].default)
    else
      var r := FindDefault(metadata[1..], setting);
      assert forall i :: 1 <= i < |metadata| ==> metadata[i] == metadata[1..][i - 1];
      r
  }

  /** The setting a meta field is stored under. */
  function MetaSetting(postType: string, field: string): string
  {
    Prefix(postType) + "show_" + field
  }

  /**
   * filter_wp_rig_showing_post_meta as a function: false without a post
   * type; a stored value other than the word `DEFAULT` decides; otherwise
   * the default of the listed field, and failing that the incoming `show`.
   */
  function ShowingPostMeta(show: bool, field: string, postType: string, features: PostTypeFeatures, mods: Mods, multiAuthor: bool): bool
  {
    if !ToBool(Str(postType)) then false
    else
      var result := GetThemeMod(mods, MetaSetting(postType, field), Str("DEFAULT"));
      if result == Str("DEFAULT") then
        match FindDefault(Metadata(postType, features, multiAuthor), MetaSetting(postType, field))
        case Some(d) => ToBool(d)
        case None => show
      else ToBool(result)
  }

  /**
   * filter_wp_rig_showing_post_meta: the search through the listed fields
   * returns at the first one that matches.
   */
  method FilterShowingPostMeta(show: bool, field: string, post: Post, features: PostTypeFeatures, mods: Mods, multiAuthor: bool)
    returns (r: bool)
    ensures r == ShowingPostMeta(show, field, post.postType, features, mods, multiAuthor)
  {
    var postType := post.postType;
    if !ToBool(Str(postType)) {
      return false;
    }
    var prefix := Prefix(postType);
    var result := GetThemeMod(mods, prefix + "show_" + field, Str("DEFAULT"));
    if Str("DEFAULT") == result {
      var metadata := GetMetadata(postType, features, multiAuthor);
      var i := 0;
      while i < |metadata|
        invariant 0 <= i <= |metadata|
        invariant FindDefault(metadata, prefix + "show_" + field) == FindDefault(metadata[i..], prefix + "show_" + field)
      {
        if metadata[i].setting == prefix + "show_" + field && metadata[i].default != Null {
          return ToBool(metadata[i].default);
        }
        assert metadata[i..][1..] == metadata[i + 1..];
        i := i + 1;
      }
      return show;
    }
    return ToBool(result);
  }

  /** Without a post type (false, '' or '0') nothing is shown. */
  lemma NoPostTypeHidesMeta(show: bool, field: string, postType: string, features: PostTypeFeatures, mods: Mods, multiAuthor: bool)
    requires !ToBool(Str(postType))
    ensures !ShowingPostMeta(show, field, postType, features, mods, multiAuthor)
  {
  }

  /** A stored value other than `DEFAULT` is the answer, cast to bool. */
  lemma StoredMetaValueDecides(show: bool, field: string, postType: string, features: PostTypeFeatures, mods: Mods, multiAuthor: bool)
    requires ToBool(Str(postType))
    requires MetaSetting(postType, field) in mods
    requires mods[MetaSetting(postType, field)] != Null && mods[MetaSetting(postType, field)] != Str("DEFAULT")
    ensures ShowingPostMeta(show, field, postType, features, mods, multiAuthor) == ToBool(mods[MetaSetting(postType, field)])
  {
  }

  /** A stored `DEFAULT` counts as nothing stored. */
  lemma DefaultWordIsAbsent(show: bool, field: string, postType: string, features: PostTypeFeatures, mods: Mods, multiAuthor: bool)
    ensures ShowingPostMeta(show, field, postType, features, mods[MetaSetting(postType, field) := Str("DEFAULT")], multiAuthor)
         == ShowingPostMeta(show, field, postType, features, mods - {MetaSetting(postType, field)}, multiAuthor)
  {
  }

  /** Unset, the date is shown iff the type is `post` or has an archive. */
  lemma DateDefault(show: bool, postType: string, features: PostTypeFeatures, mods: Mods, multiAuthor: bool)
    requires ToBool(Str(postType)) && MetaSetting(postType, "date") !in mods
    ensures ShowingPostMeta(show, "date", postType, features, mods, multiAuthor)
        <==> postType == "post" || ToBool(features.hasArchive)
  {
    var md := Metadata(postType, features, multiAuthor);
    assert md[0].setting == MetaSetting(postType, "date");
  }

  /**
   * Unset, the author is shown iff the site has several authors when the
   * type supports authors; otherwise the incoming `show` stands.
   */
  lemma AuthorDefault(show: bool, postType: string, features: PostTypeFeatures, mods: Mods, multiAuthor: bool)
    requires ToBool(Str(postType)) && MetaSetting(postType, "author") !in mods
    ensures ShowingPostMeta(show, "author", postType, features, mods, multiAuthor)
         == if features.supportsAuthor then multiAuthor else show
  {
    var md := Metadata(postType, features, multiAuthor);
    SuffixCancel(Prefix(postType), "show_date", "show_author");
    assert "show_date" != "show_author";
    assert MetaSetting(postType, "author") == Prefix(postType) + "show_author";
    assert md[0].setting != MetaSetting(postType, "author");
    if features.supportsAuthor {
      assert md[1].setting == MetaSetting(postType, "author");
    } else {
      assert FindDefault(md, MetaSetting(postType, "author")).None?;
    }
  }

  /** Unset, a field that is neither date nor author keeps the incoming `show`. */
  lemma OtherFieldKeepsShow(show: bool, field: string, postType: string, features: PostTypeFeatures, mods: Mods, multiAuthor: bool)
    requires ToBool(Str(postType)) && MetaSetting(postType, field) !in mods
    requires field != "date" && field != "author"
    ensures ShowingPostMeta(show, field, postType, features, mods, multiAuthor) == show
  {
    var md := Metadata(postType, features, multiAuthor);
    var p := Prefix(postType);
    SuffixCancel(p, "show_" + field, "show_date");
    SuffixCancel(p, "show_" + field, "show_author");
    SuffixCancel("show_", field, "date");
    SuffixCancel("show_", field, "author");
    assert MetaSetting(postType, field) == p + ("show_" + field);
    assert md[0].setting == p + ("show_" + "date");
    assert forall i :: 0 <= i < |md| ==> md[i].setting != MetaSetting(postType, field) by {
      if features.supportsAuthor {
        assert md[1].setting == p + ("show_" + "author");
      }
    }
  }

  /** wp_list_filter( $taxonomies, [ 'public' => true ] ): the public ones, in order. */
  function PublicTaxonomies(taxonomies: seq<Taxonomy>): (r: seq<Taxonomy>)
    ensures |r| <= |taxonomies|
    ensures forall t :: t in r <==> t in taxonomies && t.isPublic
  {
    if taxonomies == [] then []
    else if taxonomies[0].isPublic then [taxonomies[0]] + PublicTaxonomies(taxonomies[1..])
    else PublicTaxonomies(taxonomies[1..])
  }

  /** The setting a taxonomy's terms toggle is stored under. */
  function TermsSetting(postType: string, taxonomy: string): string
  {
    Prefix(postType) + "show_terms_" + taxonomy
  }

  /**
   * get_taxonomies: one toggle per public taxonomy of the post type, in
   * order, each shown by default; `objectTaxonomies` stands for
   * get_object_taxonomies( $name, 'objects' ).
   */
  method GetTaxonomies(postType: string, objectTaxonomies: seq<Taxonomy>) returns (taxonomies: seq<TaxonomyToggle>)
    ensures |taxonomies| == |PublicTaxonomies(objectTaxonomies)|
    ensures forall i :: 0 <= i < |taxonomies| ==>
              taxonomies[i] == TaxonomyToggle(TermsSetting(postType, PublicTaxonomies(objectTaxonomies)[i].name), true)
  {
    var prefix := Prefix(postType);
    var publicTaxonomies := PublicTaxonomies(objectTaxonomies);
    taxonomies := [];
    var i := 0;
    while i < |publicTaxonomies|
      invariant 0 <= i <= |publicTaxonomies|
      invariant |taxonomies| == i
      invariant forall j :: 0 <= j < i ==> taxonomies[j] == TaxonomyToggle(TermsSetting(postType, publicTaxonomies[j].name), true)
    {
      taxonomies := taxonomies + [TaxonomyToggle(prefix + "show_terms_" + publicTaxonomies[i].name, true)];
      i := i + 1;
    }
  }

  /**
   * filter_wp_rig_showing_post_taxonomy_terms: false without a post type,
   * otherwise the stored toggle cast to bool, the incoming `show` when unset.
   */
  function ShowingPostTaxonomyTerms(show: bool, taxonomy: string, postType: string, mods: Mods): (r: bool)
    ensures !ToBool(Str(postType)) ==> !r
    ensures ToBool(Str(postType)) && TermsSetting(postType, taxonomy) !in mods ==> r == show
    ensures ToBool(Str(postType)) && TermsSetting(postType, taxonomy) in mods && mods[TermsSetting(postType, taxonomy)] != Null
            ==> r == ToBool(mods[TermsSetting(postType, taxonomy)])
  {
    if !ToBool(Str(postType)) then false
    else ToBool(GetThemeMod(mods, Prefix(postType) + "show_terms_" + taxonomy, Bool(show)))
  }

  /**
   * The filter reads exactly the setting get_taxonomies lists for the
   * taxonomy: storing a bool there decides the terms of that taxonomy.
   */
  lemma TaxonomyToggleIsRead(postType: string, objectTaxonomies: seq<Taxonomy>, i: nat, show: bool, mods: Mods, b: bool)
    requires ToBool(Str(postType)) && i < |PublicTaxonomies(objectTaxonomies)|
    ensures var t := PublicTaxonomies(objectTaxonomies)[i];
            ShowingPostTaxonomyTerms(show, t.name, postType, mods[TermsSetting(postType, t.name) := Bool(b)]) == b
  {
  }
}
