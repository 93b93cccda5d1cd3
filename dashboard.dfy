/** The flag-preview rule of the dashboard (update_flag in
    dashboard_app/dashboard_app.py): from the rows the table currently displays
    and the selected row indices, the flag image URL and its style. */
module Dashboard {
  import opened Json

  /** One displayed table row, as the table hands it back; only its
      `flag_svg_url` key is read. */
  datatype DisplayedRow = DisplayedRow(flagSvgUrl: Field<string>)

  /** The style of the flag image. */
  datatype Style = Style(height: string, maxWidth: string, objectFit: string, border: string)

  /** The image source (`None` when the row holds an explicit `null` URL) and style. */
  datatype FlagView = FlagView(src: Option<string>, style: Style)

  const NoBorder: string := "none"
  const SelectedBorder: string := "1px solid #ccc"

  /** The fixed base style with the given border. */
  function Styled(border: string): Style
  {
    Style("200px", "100%", "contain", border)
  }

  /** `rows and dv_selected_rows`: both present and non-empty. */
  predicate HasSelection(rows: Option<seq<DisplayedRow>>, selected: Option<seq<int>>)
  {
    rows.Some? && rows.value != [] && selected.Some? && selected.value != []
  }

  /** Python list indexing: a negative index counts from the end. */
  function PyIndex(i: int, len: nat): (r: nat)
    requires -(len as int) <= i < len
    ensures r < len && r == i % len
  {
    if i < 0 then len + i else i
  }

  /** `row.get("flag_svg_url", "")`: a missing key gives "", an explicit null gives None. */
  function UrlOf(row: DisplayedRow): Option<string>
  {
    match row.flagSvgUrl
    case Missing => Some("")
    case Null => None
    case Present(u) => Some(u)
  }

  /** `update_flag`. Without rows or without a selection, an empty URL and no
      border; otherwise the URL of the displayed row at the first selected index,
      with a border. The index is not bounds-checked, so it must lie within the
      displayed rows, as Python indexing allows. */
  function UpdateFlag(rows: Option<seq<DisplayedRow>>, selected: Option<seq<int>>): (r: FlagView)
    requires HasSelection(rows, selected) ==> -|rows.value| <= selected.value[0] < |rows.value|
    ensures r.style.height == "200px" && r.style.maxWidth == "100%" && r.style.objectFit == "contain"
    ensures r.style.border == NoBorder <==> !HasSelection(rows, selected)
    ensures r.style.border != NoBorder ==> r.style.border == SelectedBorder
    ensures !HasSelection(rows, selected) ==> r.src == Some("")
    ensures HasSelection(rows, selected) ==>
      r.src == UrlOf(rows.value[PyIndex(selected.value[0], |rows.value|)])
  {
    if !HasSelection(rows, selected) then FlagView(Some(""), Styled(NoBorder))
    else
      var idx := selected.value[0];
      FlagView(UrlOf(rows.value[PyIndex(idx, |rows.value|)]), Styled(SelectedBorder))
  }

  /** Only the first selected index matters; later ones are ignored. */
  lemma FirstSelectionDecides(rows: seq<DisplayedRow>, i: int, more: seq<int>)
    requires -|rows| <= i < |rows|
    ensures UpdateFlag(Some(rows), Some([i] + more)) == UpdateFlag(Some(rows), Some([i]))
  {
  }

  /** The index refers to the displayed view: when the table shows the loaded
      rows reordered (sorted or filtered), position `k` of the view holding
      loaded row `p[k]`, selecting index `i` shows the flag of loaded row `p[i]`,
      the row now at that position, not of loaded row `i`. */
  lemma SelectionFollowsDisplayedOrder(loaded: seq<DisplayedRow>, shown: seq<DisplayedRow>, p: seq<nat>, i: nat)
    requires |shown| == |p| && i < |shown|
    requires forall k :: 0 <= k < |p| ==> p[k] < |loaded| && shown[k] == loaded[p[k]]
    ensures UpdateFlag(Some(shown), Some([i])).src == UrlOf(loaded[p[i]])
  {
  }
}
