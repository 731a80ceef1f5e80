/**
 * inc/Nav_Menus/Component.php: the dropdown symbol of the primary menu and
 * the argument defaults of the three menu template tags.
 */
module NavMenus {
  import opened Php
  import opened Host
  import Dict
  import SocialNavMenu

  const PrimarySlug: string := "primary"
  const FooterSlug: string := "footer"

  /** The markup added after a primary-menu item that has children. */
  const DropdownMarkup: string := "<span class=\"dropdown\"><i class=\"dropdown-symbol\"></i></span>"

  predicate IsPrimaryLocation(themeLocation: Value)
  {
    !IsEmpty(themeLocation) && themeLocation == Str(PrimarySlug)
  }

  /**
   * filter_primary_nav_menu_dropdown_symbol; `classes` are the item's CSS
   * classes. The symbol is appended exactly for primary-menu items with the
   * `menu-item-has-children` class; every other item is left alone.
   */
  function FilterPrimaryNavMenuDropdownSymbol(itemOutput: string, classes: seq<string>, themeLocation: Value): (r: string)
    ensures IsPrimaryLocation(themeLocation) && "menu-item-has-children" in classes ==> r == itemOutput + DropdownMarkup
    ensures !(IsPrimaryLocation(themeLocation) && "menu-item-has-children" in classes) ==> r == itemOutput
  {
    if IsEmpty(themeLocation) || Str(PrimarySlug) != themeLocation then itemOutput
    else if classes != [] && "menu-item-has-children" in classes then itemOutput + DropdownMarkup
    else itemOutput
  }

  /**
   * The two walker_nav_menu_start_el filters, in the order they are added
   * (the dropdown filter first): an item is changed by at most one of them,
   * since each works on its own menu location.
   */
  lemma StartElFiltersExclusive(itemOutput: string, classes: seq<string>, themeLocation: Value, linkAfter: string, svg: string -> string)
    ensures var chain: seq<(string, Value) -> string> :=
              [(s, loc) => FilterPrimaryNavMenuDropdownSymbol(s, classes, loc),
               (s, loc) => SocialNavMenu.FilterSocialNavMenuIcons(s, loc, linkAfter, svg)];
            ApplyFilters(chain, itemOutput, themeLocation)
            == if IsPrimaryLocation(themeLocation) then FilterPrimaryNavMenuDropdownSymbol(itemOutput, classes, themeLocation)
               else SocialNavMenu.FilterSocialNavMenuIcons(itemOutput, themeLocation, linkAfter, svg)
    ensures FilterPrimaryNavMenuDropdownSymbol(itemOutput, classes, themeLocation) == itemOutput
         || SocialNavMenu.FilterSocialNavMenuIcons(itemOutput, themeLocation, linkAfter, svg) == itemOutput
  {
    var chain: seq<(string, Value) -> string> :=
      [(s, loc) => FilterPrimaryNavMenuDropdownSymbol(s, classes, loc),
       (s, loc) => SocialNavMenu.FilterSocialNavMenuIcons(s, loc, linkAfter, svg)];
    var first := FilterPrimaryNavMenuDropdownSymbol(itemOutput, classes, themeLocation);
    assert chain[1..][1..] == [];
    assert ApplyFilters(chain, itemOutput, themeLocation)
        == SocialNavMenu.FilterSocialNavMenuIcons(first, themeLocation, linkAfter, svg);
    if IsPrimaryLocation(themeLocation) {
      assert !SocialNavMenu.IsSocialLocation(themeLocation);
      SocialNavMenu.OtherMenusUnchanged(first, themeLocation, linkAfter, svg);
    }
  }

  /** `if ( ! isset( $args[key] ) ) $args[key] = v;` */
  function DefaultTo(args: Dict.Dict<Value>, key: string, v: Value): (r: Dict.Dict<Value>)
    ensures Dict.UniqueKeys(args) ==> Dict.UniqueKeys(r)
  {
    if Dict.IsSet(args, key) then args else Dict.Put(args, key, v)
  }

  /** A default fills the key only when it is not set, and touches no other key. */
  lemma DefaultToGet(args: Dict.Dict<Value>, key: string, v: Value, k: string)
    ensures Dict.Get(DefaultTo(args, key, v), k)
         == if k != key then Dict.Get(args, k) else if Dict.IsSet(args, key) then Dict.Get(args, key) else Some(v)
  {
  }

  /** Assignment, read back at any key. */
  lemma PutGet(args: Dict.Dict<Value>, key: string, v: Value, k: string)
    ensures Dict.Get(Dict.Put(args, key, v), k) == if k == key then Some(v) else Dict.Get(args, k)
  {
  }

  /** The arguments display_primary_nav_menu hands to wp_nav_menu. */
  function PrimaryNavMenuArgs(args: Dict.Dict<Value>): Dict.Dict<Value>
  {
    Dict.Put(DefaultTo(args, "container", Str("ul")), "theme_location", Str(PrimarySlug))
  }

  /** display_primary_nav_menu. */
  method DisplayPrimaryNavMenu(args: Dict.Dict<Value>) returns (menuArgs: Dict.Dict<Value>)
    ensures menuArgs == PrimaryNavMenuArgs(args)
  {
    menuArgs := args;
    if !Dict.IsSet(menuArgs, "container") {
      menuArgs := Dict.Put(menuArgs, "container", Str("ul"));
    }
    menuArgs := Dict.Put(menuArgs, "theme_location", Str(PrimarySlug));
  }

  /**
   * The primary menu: `container` defaults to `ul`, `theme_location` is
   * always `primary`, every other argument is the caller's.
   */
  lemma PrimaryNavMenuArgsDefaults(args: Dict.Dict<Value>)
    ensures Dict.Get(PrimaryNavMenuArgs(args), "container")
         == if Dict.IsSet(args, "container") then Dict.Get(args, "container") else Some(Str("ul"))
    ensures Dict.Get(PrimaryNavMenuArgs(args), "theme_location") == Some(Str(PrimarySlug))
    ensures forall k :: k != "container" && k != "theme_location" ==> Dict.Get(PrimaryNavMenuArgs(args), k) == Dict.Get(args, k)
    ensures Dict.UniqueKeys(args) ==> Dict.UniqueKeys(PrimaryNavMenuArgs(args))
  {
    var a1 := DefaultTo(args, "container", Str("ul"));
    forall k ensures Dict.Get(PrimaryNavMenuArgs(args), k)
                  == if k == "theme_location" then Some(Str(PrimarySlug)) else Dict.Get(a1, k) {
      PutGet(a1, "theme_location", Str(PrimarySlug), k);
    }
    forall k ensures Dict.Get(a1, k) == if k != "container" then Dict.Get(args, k) else if Dict.IsSet(args, "container") then Dict.Get(args, "container") else Some(Str("ul")) {
      DefaultToGet(args, "container", Str("ul"), k);
    }
  }

  /** The arguments display_footer_nav_menu hands to wp_nav_menu. */
  function FooterNavMenuArgs(args: Dict.Dict<Value>): Dict.Dict<Value>
  {
    Dict.Put(DefaultTo(DefaultTo(args, "container", Bool(false)), "menu_class", Str("menu inline-menu")), "theme_location", Str(FooterSlug))
  }

  /** display_footer_nav_menu. */
  method DisplayFooterNavMenu(args: Dict.Dict<Value>) returns (menuArgs: Dict.Dict<Value>)
    ensures menuArgs == FooterNavMenuArgs(args)
  {
    menuArgs := args;
    if !Dict.IsSet(menuArgs, "container") {
      menuArgs := Dict.Put(menuArgs, "container", Bool(false));
    }
    if !Dict.IsSet(menuArgs, "menu_class") {
      menuArgs := Dict.Put(menuArgs, "menu_class", Str("menu inline-menu"));
    }
    menuArgs := Dict.Put(menuArgs, "theme_location", Str(FooterSlug));
  }

  /**
   * The footer menu: `container` defaults to false and `menu_class` to
   * `menu inline-menu`, `theme_location` is always `footer`, every other
   * argument is the caller's.
   */
  lemma FooterNavMenuArgsDefaults(args: Dict.Dict<Value>)
    ensures Dict.Get(FooterNavMenuArgs(args), "container")
         == if Dict.IsSet(args, "container") then Dict.Get(args, "container") else Some(Bool(false))
    ensures Dict.Get(FooterNavMenuArgs(args), "menu_class")
         == if Dict.IsSet(args, "menu_class") then Dict.Get(args, "menu_class") else Some(Str("menu inline-menu"))
    ensures Dict.Get(FooterNavMenuArgs(args), "theme_location") == Some(Str(FooterSlug))
    ensures forall k :: k != "container" && k != "menu_class" && k != "theme_location"
              ==> Dict.Get(FooterNavMenuArgs(args), k) == Dict.Get(args, k)
    ensures Dict.UniqueKeys(args) ==> Dict.UniqueKeys(FooterNavMenuArgs(args))
  {
    var a1 := DefaultTo(args, "container", Bool(false));
    var a2 := DefaultTo(a1, "menu_class", Str("menu inline-menu"));
    forall k ensures Dict.Get(FooterNavMenuArgs(args), k)
                  == if k == "theme_location" then Some(Str(FooterSlug)) else Dict.Get(a2, k) {
      PutGet(a2, "theme_location", Str(FooterSlug), k);
    }
    forall k ensures Dict.Get(a2, k) == if k != "menu_class" then Dict.Get(a1, k) else if Dict.IsSet(a1, "menu_class") then Dict.Get(a1, "menu_class") else Some(Str("menu inline-menu")) {
      DefaultToGet(a1, "menu_class", Str("menu inline-menu"), k);
    }
    forall k ensures Dict.Get(a1, k) == if k != "container" then Dict.Get(args, k) else if Dict.IsSet(args, "container") then Dict.Get(args, "container") else Some(Bool(false)) {
      DefaultToGet(args, "container", Bool(false), k);
    }
  }

  /**
   * The screen-reader wrapping of the social links: `link_before` and
   * `link_after` are set only when neither of them is set.
   */
  function LinkWrap(args: Dict.Dict<Value>): (r: Dict.Dict<Value>)
    ensures Dict.UniqueKeys(args) ==> Dict.UniqueKeys(r)
  {
    if !Dict.IsSet(args, "link_before") && !Dict.IsSet(args, "link_after") then
      Dict.Put(Dict.Put(args, "link_before", Str("<span class=\"screen-reader-text\">")), "link_after", Str("</span>"))
    else args
  }

  /** The wrapping touches only `link_before` and `link_after`, and both or neither. */
  lemma LinkWrapGet(args: Dict.Dict<Value>, k: string)
    ensures var neither := !Dict.IsSet(args, "link_before") && !Dict.IsSet(args, "link_after");
            Dict.Get(LinkWrap(args), k)
            == if neither && k == "link_after" then Some(Str("</span>"))
               else if neither && k == "link_before" then Some(Str("<span class=\"screen-reader-text\">"))
               else Dict.Get(args, k)
  {
    if !Dict.IsSet(args, "link_before") && !Dict.IsSet(args, "link_after") {
      var a1 := Dict.Put(args, "link_before", Str("<span class=\"screen-reader-text\">"));
      PutGet(a1, "link_after", Str("</span>"), k);
      PutGet(args, "link_before", Str("<span class=\"screen-reader-text\">"), k);
    }
  }

  /** The arguments display_social_nav_menu hands to wp_nav_menu. */
  function SocialNavMenuArgs(args: Dict.Dict<Value>): Dict.Dict<Value>
  {
    var defaulted := LinkWrap(DefaultTo(DefaultTo(args, "container", Bool(false)), "menu_class", Str("menu social-menu")));
    Dict.Put(Dict.Put(defaulted, "theme_location", Str(SocialNavMenu.SocialSlug)), "depth", Int(1))
  }

  /** display_social_nav_menu. */
  method DisplaySocialNavMenu(args: Dict.Dict<Value>) returns (menuArgs: Dict.Dict<Value>)
    ensures menuArgs == SocialNavMenuArgs(args)
  {
    menuArgs := args;
    if !Dict.IsSet(menuArgs, "container") {
      menuArgs := Dict.Put(menuArgs, "container", Bool(false));
    }
    if !Dict.IsSet(menuArgs, "menu_class") {
      menuArgs := Dict.Put(menuArgs, "menu_class", Str("menu social-menu"));
    }
    if !Dict.IsSet(menuArgs, "link_before") && !Dict.IsSet(menuArgs, "link_after") {
      menuArgs := Dict.Put(menuArgs, "link_before", Str("<span class=\"screen-reader-text\">"));
      menuArgs := Dict.Put(menuArgs, "link_after", Str("</span>"));
    }
    menuArgs := Dict.Put(menuArgs, "theme_location", Str(SocialNavMenu.SocialSlug));
    menuArgs := Dict.Put(menuArgs, "depth", Int(1));
  }

  /** display_social_nav_menu's arguments, read at one key. */
  lemma SocialNavMenuArgsGet(args: Dict.Dict<Value>, k: string)
    ensures var neither := !Dict.IsSet(args, "link_before") && !Dict.IsSet(args, "link_after");
            Dict.Get(SocialNavMenuArgs(args), k)
            == if k == "depth" then Some(Int(1))
               else if k == "theme_location" then Some(Str(SocialNavMenu.SocialSlug))
               else if neither && k == "link_after" then Some(Str("</span>"))
               else if neither && k == "link_before" then Some(Str("<span class=\"screen-reader-text\">"))
               else if k == "menu_class" && !Dict.IsSet(args, k) then Some(Str("menu social-menu"))
               else if k == "container" && !Dict.IsSet(args, k) then Some(Bool(false))
               else Dict.Get(args, k)
  {
    var a1 := DefaultTo(args, "container", Bool(false));
    var a2 := DefaultTo(a1, "menu_class", Str("menu social-menu"));
    var a3 := LinkWrap(a2);
    var a4 := Dict.Put(a3, "theme_location", Str(SocialNavMenu.SocialSlug));
    assert Dict.Get(a2, "link_before") == Dict.Get(args, "link_before")
        && Dict.Get(a2, "link_after") == Dict.Get(args, "link_after") by {
      DefaultToGet(a1, "menu_class", Str("menu social-menu"), "link_before");
      DefaultToGet(args, "container", Bool(false), "link_before");
      DefaultToGet(a1, "menu_class", Str("menu social-menu"), "link_after");
      DefaultToGet(args, "container", Bool(false), "link_after");
    }
    assert Dict.Get(a2, k)
        == if k == "menu_class" && !Dict.IsSet(args, k) then Some(Str("menu social-menu"))
           else if k == "container" && !Dict.IsSet(args, k) then Some(Bool(false))
           else Dict.Get(args, k) by {
      DefaultToGet(a1, "menu_class", Str("menu social-menu"), k);
      DefaultToGet(args, "container", Bool(false), k);
      DefaultToGet(args, "container", Bool(false), "menu_class");
    }
    LinkWrapGet(a2, k);
    PutGet(a3, "theme_location", Str(SocialNavMenu.SocialSlug), k);
    PutGet(a4, "depth", Int(1), k);
  }

  /**
   * The social menu: `container` defaults to false and `menu_class` to
   * `menu social-menu`, the screen-reader wrapping is added only when the
   * caller set neither half of it, `theme_location` is always `social` and
   * `depth` always 1; every other argument is the caller's.
   */
  lemma SocialNavMenuArgsDefaults(args: Dict.Dict<Value>)
    ensures Dict.Get(SocialNavMenuArgs(args), "container")
         == if Dict.IsSet(args, "container") then Dict.Get(args, "container") else Some(Bool(false))
    ensures Dict.Get(SocialNavMenuArgs(args), "menu_class")
         == if Dict.IsSet(args, "menu_class") then Dict.Get(args, "menu_class") else Some(Str("menu social-menu"))
    ensures var neither := !Dict.IsSet(args, "link_before") && !Dict.IsSet(args, "link_after");
            Dict.Get(SocialNavMenuArgs(args), "link_before") == (if neither then Some(Str("<span class=\"screen-reader-text\">")) else Dict.Get(args, "link_before"))
            && Dict.Get(SocialNavMenuArgs(args), "link_after") == (if neither then Some(Str("</span>")) else Dict.Get(args, "link_after"))
    ensures Dict.Get(SocialNavMenuArgs(args), "theme_location") == Some(Str(SocialNavMenu.SocialSlug))
    ensures Dict.Get(SocialNavMenuArgs(args), "depth") == Some(Int(1))
    ensures forall k :: k != "container" && k != "menu_class" && k != "link_before" && k != "link_after"
                        && k != "theme_location" && k != "depth"
              ==> Dict.Get(SocialNavMenuArgs(args), k) == Dict.Get(args, k)
    ensures Dict.UniqueKeys(args) ==> Dict.UniqueKeys(SocialNavMenuArgs(args))
  {
    SocialNavMenuArgsGet(args, "container");
    SocialNavMenuArgsGet(args, "menu_class");
    SocialNavMenuArgsGet(args, "link_before");
    SocialNavMenuArgsGet(args, "link_after");
    SocialNavMenuArgsGet(args, "theme_location");
    SocialNavMenuArgsGet(args, "depth");
    forall k | k != "container" && k != "menu_class" && k != "link_before" && k != "link_after" && k != "theme_location" && k != "depth"
      ensures Dict.Get(SocialNavMenuArgs(args), k) == Dict.Get(args, k) {
      SocialNavMenuArgsGet(args, k);
    }
  }
}
