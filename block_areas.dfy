/**
 * inc/Block_Areas/Component.php: the integration with the Block Areas
 * plugin. The plugin is an optional oracle: `None` when the `block_areas`
 * function does not exist, otherwise the set of block area slugs it knows.
 */
module BlockAreas {
  import opened Php
  import Dict

  type Plugin = Option<set<string>>

  /** The CSS handle of the footer widget areas stylesheet. */
  const FooterWidgetAreasHandle: string := "wp-rig-footer-widget-areas"

  /** has_block_area. */
  function HasBlockArea(plugin: Plugin, slug: string): (r: bool)
    ensures plugin.None? ==> !r
    ensures plugin.Some? ==> (r <==> slug in plugin.value)
  {
    if plugin.None? then false else slug in plugin.value
  }

  /** render_block_area: the slug handed to the plugin's renderer, nothing without the plugin. */
  function RenderBlockArea(plugin: Plugin, slug: string): (r: Option<string>)
    ensures r.None? <==> plugin.None?
    ensures r.Some? ==> r.value == slug
  {
    if plugin.None? then None else Some(slug)
  }

  /** isset($css_files[$handle]), where a null entry (None) counts as unset. */
  predicate IsSetFile<D>(cssFiles: Dict.Dict<Option<D>>, handle: string)
  {
    Dict.Get(cssFiles, handle).Some? && Dict.Get(cssFiles, handle).value.Some?
  }

  /**
   * filter_wp_rig_css_files: the footer widget areas stylesheet is dropped
   * when a `footer` block area replaces the widget areas. Each file's data
   * is opaque to the filter.
   */
  method FilterWpRigCssFiles<D>(cssFiles: Dict.Dict<Option<D>>, plugin: Plugin) returns (r: Dict.Dict<Option<D>>)
    ensures var drop := IsSetFile(cssFiles, FooterWidgetAreasHandle) && HasBlockArea(plugin, "footer");
            (drop ==> !Dict.HasKey(r, FooterWidgetAreasHandle)) && (!drop ==> r == cssFiles)
    ensures forall k :: k != FooterWidgetAreasHandle ==> Dict.Get(r, k) == Dict.Get(cssFiles, k)
    ensures Dict.UniqueKeys(cssFiles) && IsSetFile(cssFiles, FooterWidgetAreasHandle) && HasBlockArea(plugin, "footer")
            ==> exists i :: 0 <= i < |cssFiles| && r == cssFiles[..i] + cssFiles[i + 1..]
  {
    r := cssFiles;
    if IsSetFile(r, FooterWidgetAreasHandle) && HasBlockArea(plugin, "footer") {
      r := Dict.Unset(r, FooterWidgetAreasHandle);
      if Dict.UniqueKeys(cssFiles) {
        ghost var i :| 0 <= i < |cssFiles| && cssFiles[i].0 == FooterWidgetAreasHandle;
        Dict.UnsetRemovesOne(cssFiles, FooterWidgetAreasHandle, i);
      }
    }
  }
}
