/**
 * The host lookups the theme reads, treated as oracles: the stored theme
 * settings (get_theme_mod), the site options (get_option) and the filter
 * chains of apply_filters, which run the registered callbacks in order.
 */
module Host {
  import opened Php

  /** The stored theme settings, by setting name. */
  type Mods = map<string, Value>

  /** A post as the theme's filters see it: its ID and the name of its post type. */
  datatype Post = Post(id: Int64, postType: string)

  /** The site options, by option name. */
  type Options = map<string, Value>

  /**
   * get_theme_mod($name, $default): the stored value when it is set (present
   * and not null), otherwise the default.
   */
  function GetThemeMod(mods: Mods, name: string, default: Value): Value
  {
    if name in mods && mods[name] != Null then mods[name] else default
  }

  /** get_option($name): the stored option, or false when there is none. */
  function GetOption(options: Options, name: string): Value
  {
    if name in options then options[name] else Bool(false)
  }

  /**
   * apply_filters($hook, $value, $arg): each callback of the chain receives
   * the previous callback's result, the first one the seed value.
   */
  function ApplyFilters<T, A>(chain: seq<(T, A) -> T>, value: T, arg: A): T
  {
    if chain == [] then value else ApplyFilters(chain[1..], chain[0](value, arg), arg)
  }

  /** Running two chains one after the other is running their concatenation. */
  lemma {:induction false} ApplyFiltersAppend<T, A>(first: seq<(T, A) -> T>, second: seq<(T, A) -> T>, value: T, arg: A)
    ensures ApplyFilters(first + second, value, arg) == ApplyFilters(second, ApplyFilters(first, value, arg), arg)
  {
    if first == [] {
      assert first + second == second;
    } else {
      assert (first + second)[1..] == first[1..] + second;
      ApplyFiltersAppend(first[1..], second, first[0](value, arg), arg);
    }
  }
}
