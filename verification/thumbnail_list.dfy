/**
 The study browser's thumbnail list (first UI library): the latest structured
 report it opens automatically, the thumbnails it renders, the component each
 thumbnail becomes, and the bounded search for the viewport element it listens
 on.
 */
module ThumbnailList {
  import opened Common

  /**
   A thumbnail as the list receives it. A series number is a number or
   undefined; undefined compares false with everything.
   */
  datatype Thumb = Thumb(
    displaySetInstanceUID: Option<string>,
    description: Option<string>,
    seriesNumber: Option<int>,
    numInstances: Option<int>,
    modality: Option<string>,
    componentType: Option<string>)

  predicate IsSr(t: Thumb) { t.modality == Some("SR") }
  predicate IsNotSr(t: Thumb) { !IsSr(t) }

  // ---------------------------------------------------------------------------
  // The latest structured report
  // ---------------------------------------------------------------------------

  /** The reduce accumulator: the `{seriesNumber: -Infinity}` seed, or a thumbnail. */
  datatype Latest = Sentinel | Found(thumb: Thumb)

  /** `current.seriesNumber > max.seriesNumber`, with the seed below every number. */
  predicate Beats(current: Thumb, max: Latest) {
    && current.seriesNumber.Some?
    && (max.Sentinel? ||
        (max.thumb.seriesNumber.Some? && current.seriesNumber.value > max.thumb.seriesNumber.value))
  }

  function ReduceStep(max: Latest, current: Thumb): Latest {
    if Beats(current, max) then Found(current) else max
  }

  /** The left-to-right reduce over a list, from the seed. */
  function Reduce(ts: seq<Thumb>): Latest
    decreases |ts|
  {
    if |ts| == 0 then Sentinel else ReduceStep(Reduce(ts[..|ts| - 1]), ts[|ts| - 1])
  }

  /** Position `i` holds the largest series number, and no earlier position holds as large a one. */
  predicate IsFirstMax(ts: seq<Thumb>, i: int) {
    && 0 <= i < |ts|
    && ts[i].seriesNumber.Some?
    && (forall j :: 0 <= j < |ts| && ts[j].seriesNumber.Some? ==> ts[j].seriesNumber.value <= ts[i].seriesNumber.value)
    && (forall j :: 0 <= j < i && ts[j].seriesNumber.Some? ==> ts[j].seriesNumber.value < ts[i].seriesNumber.value)
  }

  predicate NoSeriesNumber(ts: seq<Thumb>) {
    forall j :: 0 <= j < |ts| ==> ts[j].seriesNumber.None?
  }

  /**
   The reduce picks the thumbnail with the largest series number, the earliest
   of them on a tie; it stays at the seed exactly when no thumbnail has a
   series number.
   */
  lemma {:induction false} ReduceIsFirstMax(ts: seq<Thumb>)
    ensures Reduce(ts).Sentinel? <==> NoSeriesNumber(ts)
    ensures Reduce(ts).Found? ==> exists i :: IsFirstMax(ts, i) && ts[i] == Reduce(ts).thumb
    decreases |ts|
  {
    if |ts| > 0 {
      var n := |ts| - 1;
      var pre := ts[..n];
      ReduceIsFirstMax(pre);
      assert forall j :: 0 <= j < n ==> pre[j] == ts[j];
      var r := Reduce(pre);
      if r.Found? {
        var i :| IsFirstMax(pre, i) && pre[i] == r.thumb;
        if Beats(ts[n], r) {
          assert IsFirstMax(ts, n);
        } else {
          assert IsFirstMax(ts, i);
        }
      } else if Beats(ts[n], r) {
        assert IsFirstMax(ts, n);
      }
    }
  }

  /** `latestThumbnail`: the reduce over the structured reports only. */
  function LatestSr(ts: seq<Thumb>): Latest {
    Reduce(Filter(ts, IsSr))
  }

  /**
   The latest report is a structured report of the list with the largest
   series number among the reports, the first in list order on a tie; with no
   numbered report it is the seed.
   */
  lemma LatestSrIsNewestReport(ts: seq<Thumb>)
    ensures LatestSr(ts).Sentinel? <==> NoSeriesNumber(Filter(ts, IsSr))
    ensures LatestSr(ts).Found? ==>
      && LatestSr(ts).thumb in ts
      && IsSr(LatestSr(ts).thumb)
      && exists i :: IsFirstMax(Filter(ts, IsSr), i) && Filter(ts, IsSr)[i] == LatestSr(ts).thumb
  {
    ReduceIsFirstMax(Filter(ts, IsSr));
  }

  /**
   `handleImageRendered`: until the annotations have been loaded, a render of
   the viewport opens the latest report, provided it has a display set.
   */
  function AutoOpen(hasLoadedAnnotations: bool, latest: Latest): (target: Option<string>)
    ensures target.Some? <==> !hasLoadedAnnotations && latest.Found? && Truthy(latest.thumb.displaySetInstanceUID)
    ensures target.Some? ==> target == latest.thumb.displaySetInstanceUID
  {
    if !hasLoadedAnnotations && latest.Found? && Truthy(latest.thumb.displaySetInstanceUID) then
      latest.thumb.displaySetInstanceUID
    else None
  }

  /** What gets opened is the display set of the newest structured report in the list. */
  lemma AutoOpenOpensNewestReport(ts: seq<Thumb>)
    requires AutoOpen(false, LatestSr(ts)).Some?
    ensures exists t :: (
      && t in ts && IsSr(t)
      && Some(AutoOpen(false, LatestSr(ts)).value) == t.displaySetInstanceUID
      && t.seriesNumber.Some?
      && forall u :: u in ts && IsSr(u) && u.seriesNumber.Some? ==> u.seriesNumber.value <= t.seriesNumber.value)
  {
    LatestSrIsNewestReport(ts);
    var srs := Filter(ts, IsSr);
    var t := LatestSr(ts).thumb;
    var i :| IsFirstMax(srs, i) && srs[i] == t;
    forall u | u in ts && IsSr(u) && u.seriesNumber.Some?
      ensures u.seriesNumber.value <= t.seriesNumber.value
    {
      var k :| 0 <= k < |ts| && ts[k] == u;
      assert u in srs;
      var j :| 0 <= j < |srs| && srs[j] == u;
    }
  }

  // ---------------------------------------------------------------------------
  // Rendering
  // ---------------------------------------------------------------------------

  /** The rendered list: every thumbnail except the structured reports, in order. */
  function RenderedThumbs(ts: seq<Thumb>): (r: seq<Thumb>)
    ensures forall t :: t in r ==> t in ts && !IsSr(t)
    ensures forall t :: t in ts && !IsSr(t) ==> t in r
  {
    var r := Filter(ts, IsNotSr);
    assert forall t :: t in ts && !IsSr(t) ==> t in r by {
      forall t | t in ts && !IsSr(t) ensures t in r {
        var i :| 0 <= i < |ts| && ts[i] == t;
      }
    }
    r
  }

  /** The list loses no thumbnail but the reports: rendered plus reports is a permutation of the input. */
  lemma RenderedAndReportsPartition(ts: seq<Thumb>)
    ensures multiset(RenderedThumbs(ts) + Filter(ts, IsSr)) == multiset(ts)
    ensures |RenderedThumbs(ts)| == |ts| - |Filter(ts, IsSr)|
  {
    FilterComplementPermutation(ts, IsNotSr, IsSr);
  }

  /** The element a thumbnail renders as. */
  datatype Element =
    | ImageThumbnail(uid: Option<string>, isActive: bool)
    | TrackedThumbnail(uid: Option<string>, isActive: bool)
    | NoImageThumbnail(uid: Option<string>, modalityTooltip: string)
    | Empty

  function IsActive(t: Thumb, active: seq<string>): bool {
    t.displaySetInstanceUID.Some? && t.displaySetInstanceUID.value in active
  }

  /** The component switch: three known component types, and an empty fragment for anything else. */
  function RenderThumb(t: Thumb, active: seq<string>): (e: Element)
    ensures e.Empty? <==> t.componentType !in {Some("thumbnail"), Some("thumbnailTracked"), Some("thumbnailNoImage")}
    ensures (e.ImageThumbnail? || e.TrackedThumbnail?) ==>
      e.uid == t.displaySetInstanceUID && (e.isActive <==> t.displaySetInstanceUID.Some? && t.displaySetInstanceUID.value in active)
    ensures e.NoImageThumbnail? ==> e.uid == t.displaySetInstanceUID && e.modalityTooltip == ModalityTooltip(t.modality)
  {
    if t.componentType == Some("thumbnail") then ImageThumbnail(t.displaySetInstanceUID, IsActive(t, active))
    else if t.componentType == Some("thumbnailTracked") then TrackedThumbnail(t.displaySetInstanceUID, IsActive(t, active))
    else if t.componentType == Some("thumbnailNoImage") then NoImageThumbnail(t.displaySetInstanceUID, ModalityTooltip(t.modality))
    else Empty
  }

  function RenderList(ts: seq<Thumb>, active: seq<string>): (es: seq<Element>)
    ensures |es| == |ts|
    ensures forall i :: 0 <= i < |ts| ==> es[i] == RenderThumb(ts[i], active)
  {
    seq(|ts|, i requires 0 <= i < |ts| => RenderThumb(ts[i], active))
  }

  // ---------------------------------------------------------------------------
  // Modality tooltips
  // ---------------------------------------------------------------------------

  /** The tooltip of a modality: the three derived modalities by name, "Unknown" for the rest. */
  function ModalityTooltip(modality: Option<string>): (tip: string)
    ensures tip == "Unknown" <==> modality !in {Some("SR"), Some("SEG"), Some("RTSTRUCT")}
  {
    match modality
    case Some("SR") => "Structured Report"
    case Some("SEG") => "Segmentation"
    case Some("RTSTRUCT") => "RT Structure Set"
    case _ => "Unknown"
  }

  /** The modality a tooltip names, for the three it names. */
  function TooltipModality(tip: string): Option<string> {
    if tip == "Structured Report" then Some("SR")
    else if tip == "Segmentation" then Some("SEG")
    else if tip == "RT Structure Set" then Some("RTSTRUCT")
    else None
  }

  /** A known tooltip identifies its modality, so no two modalities share one. */
  lemma TooltipRoundTrip(modality: Option<string>)
    ensures TooltipModality(ModalityTooltip(modality)).Some? ==> TooltipModality(ModalityTooltip(modality)) == modality
    ensures modality in {Some("SR"), Some("SEG"), Some("RTSTRUCT")} ==> TooltipModality(ModalityTooltip(modality)) == modality
  {
  }

  // ---------------------------------------------------------------------------
  // The bounded search for the viewport element
  // ---------------------------------------------------------------------------

  /** The retry guard: `count < maxRetries` here, `count <= maxRetries` in the second UI library. */
  datatype RetryGuard = BelowMax | UpToMax

  predicate MayRetry(guard: RetryGuard, count: int, maxRetries: int) {
    match guard
    case BelowMax => count < maxRetries
    case UpToMax => count <= maxRetries
  }

  /** Where one attempt leaves the search: listening, a retry scheduled, or given up. */
  datatype Attempt = Listening | Retrying | GaveUp

  /**
   One attempt to find the viewport element. Finding it resets the count;
   missing it schedules a retry and counts it while the guard allows,
   otherwise the search gives up.
   */
  function SetupAttempt(guard: RetryGuard, count: nat, maxRetries: int, found: bool): (r: (nat, Attempt))
    ensures found ==> r == (0, Listening)
    ensures !found && MayRetry(guard, count, maxRetries) ==> r == (count + 1, Retrying)
    ensures !found && !MayRetry(guard, count, maxRetries) ==> r == (count, GaveUp)
  {
    if found then (0, Listening)
    else if MayRetry(guard, count, maxRetries) then (count + 1, Retrying)
    else (count, GaveUp)
  }

  /** How many retries are scheduled, from a count, while the element never appears. */
  function RetriesWhileMissing(guard: RetryGuard, count: nat, maxRetries: int): nat
    decreases maxRetries + 1 - count
  {
    var (next, attempt) := SetupAttempt(guard, count, maxRetries, false);
    if attempt == Retrying then 1 + RetriesWhileMissing(guard, next, maxRetries) else 0
  }

  function Bound(guard: RetryGuard, maxRetries: int): int {
    match guard
    case BelowMax => maxRetries
    case UpToMax => maxRetries + 1
  }

  lemma {:induction false} RetriesFromCount(guard: RetryGuard, count: nat, maxRetries: int)
    ensures RetriesWhileMissing(guard, count, maxRetries) == if count < Bound(guard, maxRetries) then Bound(guard, maxRetries) - count else 0
    decreases maxRetries + 1 - count
  {
    if MayRetry(guard, count, maxRetries) {
      RetriesFromCount(guard, count + 1, maxRetries);
    }
  }

  /**
   From a fresh start the search gives up after `maxRetries` retries under
   `<`, and after `maxRetries + 1` under `<=`; a negative limit allows none.
   */
  lemma RetriesUntilGiveUp(maxRetries: int)
    ensures RetriesWhileMissing(BelowMax, 0, maxRetries) == if maxRetries > 0 then maxRetries else 0
    ensures RetriesWhileMissing(UpToMax, 0, maxRetries) == if maxRetries >= 0 then maxRetries + 1 else 0
  {
    RetriesFromCount(BelowMax, 0, maxRetries);
    RetriesFromCount(UpToMax, 0, maxRetries);
  }
}
