/**
 A row of a data panel in the second UI library: the action buttons it offers,
 how an action reaches its callback, and how its helpers lay out detail lines
 (indentation, "name: value" splitting, the four-line preview). The row never
 calls these helpers, so in practice it shows no details.
 */
module DataRow {
  import opened Common

  // ---------------------------------------------------------------------------
  // Actions
  // ---------------------------------------------------------------------------

  /** The row's callbacks. */
  datatype RowCallback = OnRename | OnToggleLocked | OnDelete | OnColor

  /** `handleAction`: each known action name reaches exactly one callback, any other name none. */
  function HandleAction(action: string): (cb: Option<RowCallback>)
    ensures cb.None? <==> action !in {"Rename", "Lock", "Delete", "Color"}
  {
    match action
    case "Rename" => Some(OnRename)
    case "Lock" => Some(OnToggleLocked)
    case "Delete" => Some(OnDelete)
    case "Color" => Some(OnColor)
    case _ => None
  }

  /** The action name that reaches a callback. */
  function ActionName(cb: RowCallback): string {
    match cb
    case OnRename => "Rename"
    case OnToggleLocked => "Lock"
    case OnDelete => "Delete"
    case OnColor => "Color"
  }

  /** Action names and callbacks correspond one to one. */
  lemma ActionRoundTrip(cb: RowCallback, action: string)
    ensures HandleAction(ActionName(cb)) == Some(cb)
    ensures HandleAction(action) == Some(cb) ==> action == ActionName(cb)
  {
  }

  /** The action buttons, left to right: none when read-only, else rename and delete, and color when a color callback is given. */
  function Buttons(readOnly: bool, hasOnColor: bool): (bs: seq<string>)
    ensures readOnly ==> bs == []
    ensures !readOnly ==> |bs| >= 2 && bs[..2] == ["Rename", "Delete"] && (|bs| == 3 <==> hasOnColor)
    ensures !readOnly && hasOnColor ==> bs[2] == "Color"
  {
    if readOnly then [] else ["Rename", "Delete"] + (if hasOnColor then ["Color"] else [])
  }

  /** Every button reaches a callback, and none of them toggles the lock. */
  lemma ButtonsNeverLock(readOnly: bool, hasOnColor: bool)
    ensures forall b :: b in Buttons(readOnly, hasOnColor) ==>
      HandleAction(b).Some? && HandleAction(b) != Some(OnToggleLocked)
  {
  }

  // ---------------------------------------------------------------------------
  // Detail lines
  // ---------------------------------------------------------------------------

  /** A line is indented one level when it starts with two spaces. */
  function Indent(line: string): (n: nat)
    ensures n == 1 <==> StartsWith(line, "  ")
    ensures n <= 1
  {
    if StartsWith(line, "  ") then 1 else 0
  }

  /** A rendered detail line. */
  datatype DetailText =
    | Spacer(indent: nat)
    | Plain(indentation: string, text: string)
    | Labelled(indentation: string, name: string, value: string)

  /**
   `renderDetailText`: a spacer for an empty line; otherwise the decoded text
   after the indentation, split at its first ':' into a name (with the colon)
   and the segment up to the next ':'. `decode` stands for the HTML entity
   decoding.
   */
  function RenderDetailText(text: string, indent: nat, decode: string -> string): (d: DetailText)
    ensures d.Spacer? <==> text == ""
    ensures d.Spacer? ==> d.indent == indent
    ensures d.Plain? <==> text != "" && ':' !in decode(text)
    ensures d.Plain? ==> d.text == decode(text) && d.indentation == Repeat("  ", indent)
    ensures d.Labelled? ==> d.indentation == Repeat("  ", indent)
  {
    if text == "" then Spacer(indent)
    else
      var clean := decode(text);
      var indentation := Repeat("  ", indent);
      if ':' in clean then
        var parts := Split(clean, ':');
        Labelled(indentation, parts[0] + ":", parts[1])
      else Plain(indentation, clean)
  }

  /**
   A labelled line shows a prefix of the decoded text: the name up to the first
   colon, the colon, and the value up to the next colon. Whatever is cut off is
   empty or starts at that next colon.
   */
  lemma LabelledIsPrefix(text: string, indent: nat, decode: string -> string)
    requires RenderDetailText(text, indent, decode).Labelled?
    ensures var d := RenderDetailText(text, indent, decode);
      && ':' !in d.name[..|d.name| - 1] && |d.name| >= 1 && d.name[|d.name| - 1] == ':'
      && ':' !in d.value
      && StartsWith(decode(text), d.name + d.value)
      && var dropped := decode(text)[|d.name + d.value|..];
         dropped == "" || dropped[0] == ':'
  {
    var clean := decode(text);
    var parts := Split(clean, ':');
    var d := RenderDetailText(text, indent, decode);
    assert d.name == parts[0] + ":" && d.value == parts[1];
    assert d.name[..|d.name| - 1] == parts[0];
    SplitHead(clean, ':');
    var tail := if |parts| == 2 then "" else [':'] + Join(parts[2..], ':');
    assert clean == d.name + d.value + tail;
    assert clean[..|d.name + d.value|] == d.name + d.value;
  }

  /** How a line of a detail list renders, its indentation read from its leading spaces. */
  function RenderLine(line: string, decode: string -> string): DetailText {
    RenderDetailText(line, Indent(line), decode)
  }

  function RenderLines(lines: seq<string>, decode: string -> string): (ds: seq<DetailText>)
    ensures |ds| == |lines|
    ensures forall i :: 0 <= i < |lines| ==> ds[i] == RenderLine(lines[i], decode)
  {
    seq(|lines|, i requires 0 <= i < |lines| => RenderLine(lines[i], decode))
  }

  /** The number of lines shown before the ellipsis. */
  const PreviewLines := 4

  /**
   What `renderDetails` computes: the first lines inline, an ellipsis marker
   when some are hidden, every line in the tooltip. The row's own JSX never
   calls it and never reads its `details` prop, so a rendered row shows no
   details; this is what the helper would produce.
   */
  datatype Details = Details(visible: seq<DetailText>, ellipsis: bool, tooltip: seq<DetailText>)

  function RenderDetails(lines: seq<string>, decode: string -> string): (d: Details)
    ensures |d.visible| == if |lines| <= PreviewLines then |lines| else PreviewLines
    ensures d.ellipsis <==> |lines| > PreviewLines
    ensures |d.tooltip| == |lines|
    ensures forall i :: 0 <= i < |d.visible| ==> d.visible[i] == RenderLine(lines[i], decode)
    ensures forall i :: 0 <= i < |lines| ==> d.tooltip[i] == RenderLine(lines[i], decode)
  {
    var cut := if |lines| <= PreviewLines then |lines| else PreviewLines;
    Details(RenderLines(lines[..cut], decode), |lines[cut..]| > 0, RenderLines(lines, decode))
  }

  /**
   The inline lines are the tooltip's first lines, and the tooltip adds the
   hidden lines after them in order: nothing is dropped or reordered.
   */
  lemma PreviewIsTooltipPrefix(lines: seq<string>, decode: string -> string)
    ensures var d := RenderDetails(lines, decode);
      && d.visible == d.tooltip[..|d.visible|]
      && d.tooltip[|d.visible|..] == RenderLines(lines[|d.visible|..], decode)
      && (!d.ellipsis ==> d.visible == d.tooltip)
  {
  }
}
