/**
 The series thumbnail of the second UI library: double-tap detection on touch
 screens, the drag guard, its test identifier and the preset that decides how
 it is drawn.
 */
module Thumbnail {
  import opened Common

  // ---------------------------------------------------------------------------
  // Touch handling
  // ---------------------------------------------------------------------------

  /** The callback a touch end fires. */
  datatype Fired = Click | DoubleClick

  /** Two touch ends closer than this many milliseconds make a double click. */
  const DoubleTapWindow := 300

  /**
   `handleTouchEnd` at time `now` (milliseconds) after a previous tap at
   `lastTap`: a double click when the interval is positive and under the window,
   a click otherwise; the tap time is remembered either way.
   */
  function TouchEnd(lastTap: int, now: int): (r: (Fired, int))
    ensures r.0 == DoubleClick <==> 0 < now - lastTap < DoubleTapWindow
    ensures r.1 == now
  {
    var tapLength := now - lastTap;
    (if tapLength < DoubleTapWindow && tapLength > 0 then DoubleClick else Click, now)
  }

  /** The callbacks fired by a series of touch ends, starting from the remembered time `lastTap`. */
  function Touches(lastTap: int, times: seq<int>): (fired: seq<Fired>)
    ensures |fired| == |times|
    decreases |times|
  {
    if |times| == 0 then []
    else
      var (f, next) := TouchEnd(lastTap, times[0]);
      [f] + Touches(next, times[1..])
  }

  /**
   Each touch is judged against the touch just before it (the first against the
   initial tap time), whichever callback that earlier touch fired.
   */
  lemma {:induction false} TouchesJudgedPairwise(lastTap: int, times: seq<int>)
    ensures forall i :: 0 <= i < |times| ==>
      (Touches(lastTap, times)[i] == DoubleClick <==>
        0 < times[i] - (if i == 0 then lastTap else times[i - 1]) < DoubleTapWindow)
    decreases |times|
  {
    if |times| > 0 {
      var rest := times[1..];
      TouchesJudgedPairwise(times[0], rest);
      var fired := Touches(lastTap, times);
      assert fired == [TouchEnd(lastTap, times[0]).0] + Touches(times[0], rest);
      forall i | 1 <= i < |times|
        ensures fired[i] == DoubleClick <==> 0 < times[i] - times[i - 1] < DoubleTapWindow
      {
        assert fired[i] == Touches(times[0], rest)[i - 1];
        assert rest[i - 1] == times[i];
        assert (if i - 1 == 0 then times[0] else rest[i - 2]) == times[i - 1];
      }
    }
  }

  /**
   The remembered tap time is not cleared after a double click, so in a burst
   of quick taps that follows a pause, the first tap is a click and every later
   one is a double click: a triple tap fires two double clicks.
   */
  lemma TapBurstRepeatsDoubleClick(lastTap: int, times: seq<int>)
    requires |times| > 0 && times[0] - lastTap >= DoubleTapWindow
    requires forall i :: 1 <= i < |times| ==> 0 < times[i] - times[i - 1] < DoubleTapWindow
    ensures Touches(lastTap, times)[0] == Click
    ensures forall i :: 1 <= i < |times| ==> Touches(lastTap, times)[i] == DoubleClick
  {
    TouchesJudgedPairwise(lastTap, times);
    var fired := Touches(lastTap, times);
    assert fired[0] == DoubleClick <==> 0 < times[0] - lastTap < DoubleTapWindow;
    forall i | 1 <= i < |times|
      ensures fired[i] == DoubleClick
    {
      assert fired[i] == DoubleClick <==> 0 < times[i] - times[i - 1] < DoubleTapWindow;
    }
  }

  // ---------------------------------------------------------------------------
  // Dragging, identifiers and presets
  // ---------------------------------------------------------------------------

  /** `canDrag`: the drag data, `{}` when not given, has at least one key. */
  function CanDrag(dragData: Option<map<string, string>>): (ok: bool)
    ensures ok <==> dragData.Some? && dragData.value.Keys != {}
  {
    var data := dragData.GetOr(map[]);
    |data.Keys| != 0
  }

  /** The thumbnail type, "thumbnail" when not given. */
  function ThumbnailType(thumbnailType: Option<string>): string {
    thumbnailType.GetOr("thumbnail")
  }

  function DataCy(thumbnailType: Option<string>): (cy: string)
    ensures cy == "study-browser-thumbnail-no-image" <==> thumbnailType == Some("thumbnailNoImage")
    ensures cy != "study-browser-thumbnail-no-image" ==> cy == "study-browser-thumbnail"
  {
    if ThumbnailType(thumbnailType) == "thumbnailNoImage" then "study-browser-thumbnail-no-image"
    else "study-browser-thumbnail"
  }

  /** The renderer drawn inside the thumbnail. */
  datatype Renderer = ImagePreset | ListPreset | NoRenderer

  /** The view preset, "thumbnails" when not given, picks the image or the list renderer; any other value draws neither. */
  function RendererFor(viewPreset: Option<string>): (r: Renderer)
    ensures r == ImagePreset <==> viewPreset.None? || viewPreset == Some("thumbnails")
    ensures r == ListPreset <==> viewPreset == Some("list")
  {
    var preset := viewPreset.GetOr("thumbnails");
    if preset == "thumbnails" then ImagePreset
    else if preset == "list" then ListPreset
    else NoRenderer
  }

  /** The name of the preset a renderer stands for. */
  function PresetName(r: Renderer): Option<string> {
    match r
    case ImagePreset => Some("thumbnails")
    case ListPreset => Some("list")
    case NoRenderer => None
  }

  /** A preset that draws something is recovered from its renderer. */
  lemma RendererRoundTrip(preset: string)
    ensures RendererFor(Some(preset)) != NoRenderer ==> PresetName(RendererFor(Some(preset))) == Some(preset)
    ensures RendererFor(Some(preset)) == NoRenderer <==> preset !in {"thumbnails", "list"}
  {
  }
}
