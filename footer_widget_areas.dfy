/**
 * inc/Footer_Widget_Areas/Component.php: the footer's widget columns, their
 * sidebar ids `footer-1` to `footer-4`, and the checks for active columns.
 * The host's sidebar registry is an oracle: `isActiveSidebar` stands for
 * is_active_sidebar.
 */
module FooterWidgetAreas {
  import opened Php

  const WidgetAreaCount: int := 4

  /** get_footer_widget_area_count. */
  function GetFooterWidgetAreaCount(): int
  {
    WidgetAreaCount
  }

  /** The sidebar id of a column: `footer-<column>`. */
  function ColumnId(column: int): string
  {
    "footer-" + IntToDecimal(column)
  }

  /** Two columns share a sidebar id only if they are the same column. */
  lemma ColumnIdInjective(a: int, b: int)
    ensures ColumnId(a) == ColumnId(b) <==> a == b
  {
    if ColumnId(a) == ColumnId(b) {
      assert IntToDecimal(a) == ColumnId(a)[7..] == ColumnId(b)[7..] == IntToDecimal(b);
      IntToDecimalInjective(a, b);
    }
  }

  /** The arguments of one register_sidebar call. */
  datatype Sidebar = Sidebar(
    name: string, id: string, description: string,
    beforeWidget: string, afterWidget: string, beforeTitle: string, afterTitle: string)

  /** The sidebar of a column; `escHtml` stands for esc_html. */
  function FooterSidebar(column: int, escHtml: string -> string): Sidebar
  {
    Sidebar(
      escHtml("Footer Column " + IntToDecimal(column)),
      ColumnId(column),
      escHtml("Add widgets here to appear in the footer."),
      "<section id=\"%1$s\" class=\"widget %2$s\">", "</section>",
      "<h2 class=\"widget-title\">", "</h2>")
  }

  /** action_register_footer_widget_areas: one sidebar per column, columns 1 to 4 in order. */
  method RegisterFooterWidgetAreas(escHtml: string -> string) returns (sidebars: seq<Sidebar>)
    ensures |sidebars| == GetFooterWidgetAreaCount()
    ensures forall i :: 0 <= i < |sidebars| ==> sidebars[i] == FooterSidebar(i + 1, escHtml)
  {
    sidebars := [];
    var column := 1;
    while column <= WidgetAreaCount
      invariant 1 <= column <= WidgetAreaCount + 1
      invariant |sidebars| == column - 1
      invariant forall i :: 0 <= i < |sidebars| ==> sidebars[i] == FooterSidebar(i + 1, escHtml)
    {
      ColumnsSnoc(sidebars, column, escHtml);
      sidebars := sidebars + [FooterSidebar(column, escHtml)];
      column := column + 1;
    }
  }

  /** Registering the next column keeps the list one sidebar per column, in order. */
  lemma ColumnsSnoc(sidebars: seq<Sidebar>, column: int, escHtml: string -> string)
    requires |sidebars| == column - 1
    requires forall i :: 0 <= i < |sidebars| ==> sidebars[i] == FooterSidebar(i + 1, escHtml)
    ensures forall i :: 0 <= i < |sidebars| + 1 ==> (sidebars + [FooterSidebar(column, escHtml)])[i] == FooterSidebar(i + 1, escHtml)
  {
  }

  /** The id of a one-digit column is `footer-` and that digit. */
  lemma SmallColumnId(column: nat)
    requires column < 10
    ensures ColumnId(column) == "footer-" + [DigitChar(column)]
  {
  }

  /** The registered ids are exactly `footer-1`, `footer-2`, `footer-3`, `footer-4`, and no two are alike. */
  lemma RegisteredIds(sidebars: seq<Sidebar>, escHtml: string -> string)
    requires |sidebars| == GetFooterWidgetAreaCount()
    requires forall i :: 0 <= i < |sidebars| ==> sidebars[i] == FooterSidebar(i + 1, escHtml)
    ensures [sidebars[0].id, sidebars[1].id, sidebars[2].id, sidebars[3].id] == ["footer-1", "footer-2", "footer-3", "footer-4"]
    ensures forall i, j :: 0 <= i < j < |sidebars| ==> sidebars[i].id != sidebars[j].id
  {
    SmallColumnId(1);
    SmallColumnId(2);
    SmallColumnId(3);
    SmallColumnId(4);
    assert "footer-1" == "footer-" + ['1'] && "footer-2" == "footer-" + ['2'];
    assert "footer-3" == "footer-" + ['3'] && "footer-4" == "footer-" + ['4'];
    forall i, j | 0 <= i < j < |sidebars| ensures sidebars[i].id != sidebars[j].id {
      ColumnIdInjective(i + 1, j + 1);
    }
  }

  /** is_footer_widget_area_active. */
  function IsFooterWidgetAreaActive(isActiveSidebar: string -> bool, column: int): bool
  {
    isActiveSidebar(ColumnId(column))
  }

  /** display_footer_widget_area: the id handed to dynamic_sidebar. */
  function DisplayFooterWidgetArea(column: int): string
  {
    ColumnId(column)
  }

  /**
   * The activity check and the display of a column use the id the column
   * was registered under.
   */
  lemma DisplayUsesRegisteredId(sidebars: seq<Sidebar>, escHtml: string -> string, isActiveSidebar: string -> bool, column: int)
    requires |sidebars| == GetFooterWidgetAreaCount()
    requires forall i :: 0 <= i < |sidebars| ==> sidebars[i] == FooterSidebar(i + 1, escHtml)
    requires 1 <= column <= GetFooterWidgetAreaCount()
    ensures DisplayFooterWidgetArea(column) == sidebars[column - 1].id
    ensures IsFooterWidgetAreaActive(isActiveSidebar, column) == isActiveSidebar(sidebars[column - 1].id)
  {
  }

  /** The first active column, scanning from 1 up to the column count. */
  function FirstActiveColumn(isActiveSidebar: string -> bool, from: int): (r: Option<int>)
    requires 1 <= from
    ensures r.Some? ==> from <= r.value <= WidgetAreaCount && IsFooterWidgetAreaActive(isActiveSidebar, r.value)
    ensures r.Some? ==> forall c :: from <= c < r.value ==> !IsFooterWidgetAreaActive(isActiveSidebar, c)
    ensures r.None? ==> forall c :: from <= c <= WidgetAreaCount ==> !IsFooterWidgetAreaActive(isActiveSidebar, c)
    decreases WidgetAreaCount + 1 - from
  {
    if from > WidgetAreaCount then None
    else if IsFooterWidgetAreaActive(isActiveSidebar, from) then Some(from)
    else FirstActiveColumn(isActiveSidebar, from + 1)
  }

  /**
   * has_active_footer_widget_areas: true exactly when some column is
   * active. `queried` lists the columns the loop asked about: it stops at
   * the first active one.
   */
  method HasActiveFooterWidgetAreas(isActiveSidebar: string -> bool) returns (r: bool, ghost queried: seq<int>)
    ensures r <==> exists c :: 1 <= c <= WidgetAreaCount && IsFooterWidgetAreaActive(isActiveSidebar, c)
    ensures var last := match FirstActiveColumn(isActiveSidebar, 1) case Some(c) => c case None => WidgetAreaCount;
            queried == seq(last, i => i + 1)
  {
    queried := [];
    var column := 1;
    while column <= WidgetAreaCount
      invariant 1 <= column <= WidgetAreaCount + 1
      invariant queried == seq(column - 1, i => i + 1)
      invariant forall c :: 1 <= c < column ==> !IsFooterWidgetAreaActive(isActiveSidebar, c)
      invariant FirstActiveColumn(isActiveSidebar, 1) == FirstActiveColumn(isActiveSidebar, column)
    {
      queried := queried + [column];
      if IsFooterWidgetAreaActive(isActiveSidebar, column) {
        return true, queried;
      }
      column := column + 1;
    }
    return false, queried;
  }
}
