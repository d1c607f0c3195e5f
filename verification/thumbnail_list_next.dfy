/**
 The study browser's thumbnail list of the second UI library. It shares the
 latest-report reduce with the first library, but renders every thumbnail
 through one component, hides only the structured reports that are not image
 labels, and searches for the viewport element with an inclusive retry guard.
 */
module ThumbnailListNext {
  import opened Common
  import opened ThumbnailList
  import Thumbnail

  /** The one structured-report description that is shown. */
  const LabelReportDescription := "Image label/diagnoses"

  /** A thumbnail is drawn unless it is a structured report with another description. */
  predicate Visible(t: Thumb) {
    !(IsSr(t) && t.description != Some(LabelReportDescription))
  }

  /** The properties passed to the thumbnail component. */
  datatype ThumbnailProps = ThumbnailProps(
    displaySetInstanceUID: Option<string>,
    numInstances: int,
    isActive: bool,
    viewPreset: Option<string>,
    thumbnailType: Option<string>)

  /**
   The properties of one visible thumbnail: the instance count with `|| 1`
   (undefined and zero become one), and the list preset forced for thumbnails
   without an image.
   */
  function Props(t: Thumb, active: seq<string>, viewPreset: Option<string>): (p: ThumbnailProps)
    ensures p.numInstances != 0
    ensures t.numInstances.Some? && t.numInstances.value != 0 ==> p.numInstances == t.numInstances.value
    ensures p.viewPreset == if t.componentType == Some("thumbnailNoImage") then Some("list") else viewPreset
    ensures p.isActive <==> exists u :: u in active && t.displaySetInstanceUID == Some(u)
    ensures p.displaySetInstanceUID == t.displaySetInstanceUID && p.thumbnailType == t.componentType
  {
    var count := if t.numInstances.Some? && t.numInstances.value != 0 then t.numInstances.value else 1;
    var preset := if t.componentType == Some("thumbnailNoImage") then Some("list") else viewPreset;
    ThumbnailProps(t.displaySetInstanceUID, count, IsActive(t, active), preset, t.componentType)
  }

  /** The rendered list: one entry per thumbnail, in order, an empty fragment (`None`) for a hidden one. */
  function Render(ts: seq<Thumb>, active: seq<string>, viewPreset: Option<string>): (es: seq<Option<ThumbnailProps>>)
    ensures |es| == |ts|
    ensures forall i :: 0 <= i < |ts| ==> (es[i].Some? <==> Visible(ts[i]))
    ensures forall i :: 0 <= i < |ts| && Visible(ts[i]) ==> es[i] == Some(Props(ts[i], active, viewPreset))
  {
    seq(|ts|, i requires 0 <= i < |ts| => if Visible(ts[i]) then Some(Props(ts[i], active, viewPreset)) else None)
  }

  /** The drawn thumbnails, fragments dropped. */
  function Drawn(es: seq<Option<ThumbnailProps>>): seq<ThumbnailProps>
    decreases |es|
  {
    if |es| == 0 then []
    else (if es[0].Some? then [es[0].value] else []) + Drawn(es[1..])
  }

  function PropsOf(active: seq<string>, viewPreset: Option<string>, ts: seq<Thumb>): seq<ThumbnailProps>
    decreases |ts|
  {
    if |ts| == 0 then [] else [Props(ts[0], active, viewPreset)] + PropsOf(active, viewPreset, ts[1..])
  }

  /** What is drawn is exactly the visible thumbnails, in list order. */
  lemma {:induction false} DrawnAreVisible(ts: seq<Thumb>, active: seq<string>, viewPreset: Option<string>)
    ensures Drawn(Render(ts, active, viewPreset)) == PropsOf(active, viewPreset, Filter(ts, Visible))
    decreases |ts|
  {
    if |ts| > 0 {
      DrawnAreVisible(ts[1..], active, viewPreset);
      assert Render(ts, active, viewPreset)[1..] == Render(ts[1..], active, viewPreset);
    }
  }

  /**
   Every thumbnail that is not a structured report is drawn; a report is drawn
   exactly when it is an image-label report.
   */
  lemma VisibleThumbnails(t: Thumb)
    ensures !IsSr(t) ==> Visible(t)
    ensures IsSr(t) ==> (Visible(t) <==> t.description == Some(LabelReportDescription))
  {
  }

  /**
   A drawn thumbnail without an image is drawn with the list renderer and
   marked as having no image, whatever preset the list was given.
   */
  lemma NoImageThumbnailsUseList(t: Thumb, active: seq<string>, viewPreset: Option<string>)
    requires t.componentType == Some("thumbnailNoImage")
    ensures var p := Props(t, active, viewPreset);
      && Thumbnail.RendererFor(p.viewPreset) == Thumbnail.ListPreset
      && Thumbnail.DataCy(p.thumbnailType) == "study-browser-thumbnail-no-image"
  {
  }

  /**
   The inclusive guard lets the search retry once more than the first library
   does before giving up.
   */
  lemma InclusiveGuardRetriesOnceMore(maxRetries: nat)
    ensures RetriesWhileMissing(UpToMax, 0, maxRetries) == RetriesWhileMissing(BelowMax, 0, maxRetries) + 1
  {
    RetriesUntilGiveUp(maxRetries);
  }
}
