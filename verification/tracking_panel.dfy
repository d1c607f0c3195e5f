/**
 The tracked-measurements panel of the measurement-tracking mode: which
 measurements it lists, how each becomes a table row, how the rows are ordered,
 and what its annotation dialog writes back to a measurement.
 */
module TrackingPanel {
  import opened Common
  import opened Measurements

  // ---------------------------------------------------------------------------
  // Which measurements are tracked
  // ---------------------------------------------------------------------------

  /** A measurement belongs to the tracked study and to one of the tracked series. */
  predicate IsTracked(m: Measurement, trackedStudy: Option<string>, trackedSeries: seq<string>) {
    trackedStudy == Some(m.referenceStudyUID) && m.referenceSeriesUID in trackedSeries
  }

  /**
   The measurements the panel lists and exports (and the report prompt saves):
   the tracked ones, in the measurement service's order.
   */
  function TrackedMeasurements(ms: seq<Measurement>, trackedStudy: Option<string>, trackedSeries: seq<string>): (r: seq<Measurement>)
    ensures forall i :: 0 <= i < |r| ==> r[i] in ms && IsTracked(r[i], trackedStudy, trackedSeries)
    ensures forall i :: 0 <= i < |ms| && IsTracked(ms[i], trackedStudy, trackedSeries) ==> ms[i] in r
  {
    Filter(ms, m => IsTracked(m, trackedStudy, trackedSeries))
  }

  /**
   Measurements added after the current ones are listed after them, and the
   current ones keep their rows: the filter works element by element.
   */
  lemma TrackedMeasurementsAppend(ms: seq<Measurement>, added: seq<Measurement>, trackedStudy: Option<string>, trackedSeries: seq<string>)
    ensures TrackedMeasurements(ms + added, trackedStudy, trackedSeries)
         == TrackedMeasurements(ms, trackedStudy, trackedSeries) + TrackedMeasurements(added, trackedStudy, trackedSeries)
  {
    FilterAppend(ms, added, m => IsTracked(m, trackedStudy, trackedSeries));
  }

  /**
   With no tracked study nothing is listed, whatever the series. Every
   measurement carries a study UID here; in the source a measurement without
   one would match an undefined tracked study (`undefined === undefined`).
   */
  lemma {:induction false} NothingTrackedWithoutStudy(ms: seq<Measurement>, trackedSeries: seq<string>)
    ensures TrackedMeasurements(ms, None, trackedSeries) == []
    decreases |ms|
  {
    if |ms| > 0 {
      NothingTrackedWithoutStudy(ms[1..], trackedSeries);
    }
  }

  // ---------------------------------------------------------------------------
  // From measurement to table row
  // ---------------------------------------------------------------------------

  /** The finding's own text, if there is a finding. */
  function FindingText(m: Measurement): Option<string> {
    match m.finding
    case Some(f) => f.text
    case None => None
  }

  /**
   The row label: the measurement's label, else the finding's text, else the
   first finding site's text, else "(empty)". It is never empty.
   */
  function DisplayLabel(m: Measurement): (shown: string)
    ensures shown != ""
    ensures Truthy(m.labelText) ==> shown == m.labelText.value
    ensures !Truthy(m.labelText) && Truthy(FindingText(m)) ==> shown == FindingText(m).value
    ensures !Truthy(m.labelText) && !Truthy(FindingText(m)) && Truthy(FirstSiteText(m)) ==> shown == FirstSiteText(m).value
    ensures !Truthy(m.labelText) && !Truthy(FindingText(m)) && !Truthy(FirstSiteText(m)) ==> shown == "(empty)"
  {
    var cands := [m.labelText, FindingText(m), FirstSiteText(m)];
    assert cands[0] == m.labelText && cands[1] == FindingText(m) && cands[2] == FirstSiteText(m);
    FirstTruthy(cands).GetOr("(empty)")
  }

  /**
   The detail lines of a row: the texts of the finding sites, in order, when the
   measurement has finding sites (an empty list gives no lines); otherwise its
   own display text, or nothing.
   */
  function DisplayText(m: Measurement): (t: seq<Option<string>>)
    ensures m.findingSites.Some? ==>
      |t| == |m.findingSites.value| && forall i :: 0 <= i < |t| ==> t[i] == m.findingSites.value[i].text
    ensures m.findingSites.None? && m.displayText.Some? ==>
      |t| == |m.displayText.value| && forall i :: 0 <= i < |t| ==> t[i] == Some(m.displayText.value[i])
    ensures m.findingSites.None? && m.displayText.None? ==> t == []
  {
    match m.findingSites
    case Some(sites) => seq(|sites|, i requires 0 <= i < |sites| => sites[i].text)
    case None =>
      match m.displayText
      case Some(lines) => seq(|lines|, i requires 0 <= i < |lines| => Some(lines[i]))
      case None => []
  }

  /**
   A display set of the viewer; only whether its `images` property is truthy
   matters here. An empty `images` array is truthy, so it counts as present.
   */
  datatype DisplaySet = DisplaySet(imagesPresent: bool)

  /**
   The panel only tracks stack display sets: the series' first display set must
   exist and have an `images` property (an empty list passes).
   */
  predicate StackSeries(sets: seq<DisplaySet>) {
    |sets| > 0 && sets[0].imagesPresent
  }

  /**
   `_mapMeasurementToDisplay`: the row for one measurement, or the error thrown
   when its series has no first display set, or that set has no `images`
   property. `displaySetsForSeries`
   is the display-set service's lookup.
   */
  function MapToDisplay(m: Measurement, displaySetsForSeries: string -> seq<DisplaySet>): (r: Result<DisplayMeasurement>)
    ensures r.Failure? <==> !StackSeries(displaySetsForSeries(m.referenceSeriesUID))
    ensures r.Success? ==>
      && r.value.uid == m.uid
      && r.value.displayLabel == DisplayLabel(m)
      && r.value.baseLabel == m.labelText
      && r.value.measurementType == m.measurementType
      && r.value.displayText == DisplayText(m)
      && r.value.isActive == m.selected
      && r.value.findingSites == m.findingSites
  {
    if !StackSeries(displaySetsForSeries(m.referenceSeriesUID)) then
      Failure("The tracked measurements panel should only be tracking \"stack\" displaySets.")
    else
      Success(DisplayMeasurement(m.uid, DisplayLabel(m), m.labelText, m.measurementType,
                                 DisplayText(m), m.selected, m.findingSites, None))
  }

  /**
   Mapping every listed measurement: one row per measurement, in order, or the
   first error when any of them lies in a series that is not a stack.
   */
  function MapAll(ms: seq<Measurement>, displaySetsForSeries: string -> seq<DisplaySet>): (r: Result<seq<DisplayMeasurement>>)
    ensures r.Failure? <==> exists i :: 0 <= i < |ms| && MapToDisplay(ms[i], displaySetsForSeries).Failure?
    ensures r.Success? ==>
      |r.value| == |ms| && forall i :: 0 <= i < |ms| ==> r.value[i] == MapToDisplay(ms[i], displaySetsForSeries).value
  {
    MapOrFail(ms, m => MapToDisplay(m, displaySetsForSeries))
  }

  /**
   The rows the panel shows: the tracked measurements, mapped in order. The
   panel throws exactly when some tracked measurement lies in a series whose
   first display set is missing or has no `images` property (an empty
   `images` list passes).
   */
  function DisplayedRows(ms: seq<Measurement>, trackedStudy: Option<string>, trackedSeries: seq<string>,
                         displaySetsForSeries: string -> seq<DisplaySet>): (r: Result<seq<DisplayMeasurement>>)
    ensures var tracked := TrackedMeasurements(ms, trackedStudy, trackedSeries);
      r.Failure? <==> exists i :: 0 <= i < |tracked| && !StackSeries(displaySetsForSeries(tracked[i].referenceSeriesUID))
    ensures r.Success? ==> |r.value| == |TrackedMeasurements(ms, trackedStudy, trackedSeries)|
    ensures var tracked := TrackedMeasurements(ms, trackedStudy, trackedSeries);
      r.Success? ==> forall i :: 0 <= i < |r.value| ==> r.value[i] == MapToDisplay(tracked[i], displaySetsForSeries).value
    ensures r.Success? ==> forall i :: 0 <= i < |r.value| ==>
      exists m :: m in ms && IsTracked(m, trackedStudy, trackedSeries) && r.value[i].uid == m.uid
  {
    var tracked := TrackedMeasurements(ms, trackedStudy, trackedSeries);
    var r := MapAll(tracked, displaySetsForSeries);
    if r.Success? then
      assert forall i :: 0 <= i < |r.value| ==> r.value[i].uid == tracked[i].uid;
      r
    else
      r
  }

  // ---------------------------------------------------------------------------
  // Table order and the save control
  // ---------------------------------------------------------------------------

  /**
   The table data: every non-point row, then every point row (the additional
   findings), each group in its original order. Nothing is lost or repeated.
   */
  function TableData(ds: seq<DisplayMeasurement>): (t: seq<DisplayMeasurement>)
    ensures multiset(t) == multiset(ds)
    ensures forall i, j :: 0 <= i < j < |t| && IsPoint(t[i]) ==> IsPoint(t[j])
    ensures Filter(t, IsNotPoint) == Filter(ds, IsNotPoint)
    ensures Filter(t, IsPoint) == Filter(ds, IsPoint)
  {
    FilterComplementPermutation(ds, IsNotPoint, IsPoint);
    var rows := Filter(ds, IsNotPoint);
    var findings := Filter(ds, IsPoint);
    assert forall i :: 0 <= i < |rows| ==> !IsPoint(rows[i]);
    KeepsGroupOrder(rows, findings);
    rows + findings
  }

  /** The save-report control is disabled exactly when both groups are empty, that is, when no row is shown. */
  function SaveDisabled(ds: seq<DisplayMeasurement>): (disabled: bool)
    ensures disabled <==> |ds| == 0
  {
    FilterComplementPermutation(ds, IsNotPoint, IsPoint);
    |Filter(ds, IsPoint)| == 0 && |Filter(ds, IsNotPoint)| == 0
  }

  // ---------------------------------------------------------------------------
  // The annotation dialog
  // ---------------------------------------------------------------------------

  /** The dialog value `{label, description}`; a key may hold `undefined`. */
  datatype EditValue = EditValue(labelValue: Option<string>, description: Option<string>)

  /** What a submit does: the measurement-service update it issues, and whether the dialog closes. */
  datatype EditEffect = EditEffect(update: Option<Measurement>, dismissed: bool)

  /** The dialog opens on the measurement's label and its first finding site's text, or "". */
  function EditInitialValue(m: Measurement): (v: EditValue)
    ensures v.labelValue == Some(if Truthy(m.labelText) then m.labelText.value else "")
    ensures v.description == Some(if Truthy(FirstSiteText(m)) then FirstSiteText(m).value else "")
  {
    EditValue(Some(FirstTruthy([m.labelText]).GetOr("")), Some(FirstTruthy([FirstSiteText(m)]).GetOr("")))
  }

  /**
   The finding sites after a save: the first site's meaning and text become the
   description, or a free-text site is created when there is no list. An empty
   list has no first site to write to, so the source throws.
   */
  function SavedSites(sites: Option<seq<CodedSite>>, description: Option<string>): (r: Result<seq<CodedSite>>)
    ensures r.Failure? <==> sites == Some([])
    ensures sites.None? ==> r == Success([FreeTextSite(description)])
    ensures sites.Some? && r.Success? ==>
      && |r.value| == |sites.value|
      && r.value[0] == sites.value[0].(codeMeaning := description, text := description)
      && r.value[1..] == sites.value[1..]
  {
    match sites
    case None => Success([FreeTextSite(description)])
    case Some(s) =>
      if |s| == 0 then Failure("TypeError: Cannot set properties of undefined (setting 'CodeMeaning')")
      else Success([s[0].(codeMeaning := description, text := description)] + s[1..])
  }

  /**
   The dialog's submit handler. On "save" the measurement is updated with the
   dialog's label and description and its finding sites rewritten; every action
   then closes the dialog, unless the save threw first.
   */
  function EditSubmit(m: Measurement, actionId: string, value: EditValue): (r: Result<EditEffect>)
    ensures actionId != "save" ==> r == Success(EditEffect(None, true))
    ensures actionId == "save" ==> (r.Failure? <==> m.findingSites == Some([]))
    ensures actionId == "save" && r.Success? ==>
      && r.value.dismissed
      && r.value.update.Some?
      && var u := r.value.update.value;
      && u.labelText == value.labelValue
      && u.description == value.description
      && SavedSites(m.findingSites, value.description).Success?
      && u.findingSites == Some(SavedSites(m.findingSites, value.description).value)
      && u.(labelText := m.labelText, description := m.description, findingSites := m.findingSites) == m
  {
    if actionId != "save" then Success(EditEffect(None, true))
    else
      match SavedSites(m.findingSites, value.description)
      case Failure(e) => Failure(e)
      case Success(sites) =>
        Success(EditEffect(Some(m.(findingSites := Some(sites), labelText := value.labelValue, description := value.description)), true))
  }

  /**
   Saving and reopening the dialog shows what was saved, whenever the label and
   description saved are non-empty.
   */
  lemma EditRoundTrip(m: Measurement, value: EditValue)
    requires Truthy(value.labelValue) && Truthy(value.description)
    requires EditSubmit(m, "save", value).Success?
    ensures EditInitialValue(EditSubmit(m, "save", value).value.update.value) == value
  {
    var u := EditSubmit(m, "save", value).value.update.value;
    assert FirstSiteText(u) == value.description;
  }

  /**
   After a save the row shows the description as its first detail line and the
   saved label as its label, whenever the label saved is non-empty.
   */
  lemma SavedEditIsDisplayed(m: Measurement, value: EditValue, displaySetsForSeries: string -> seq<DisplaySet>)
    requires Truthy(value.labelValue)
    requires EditSubmit(m, "save", value).Success?
    requires StackSeries(displaySetsForSeries(m.referenceSeriesUID))
    ensures var row := MapToDisplay(EditSubmit(m, "save", value).value.update.value, displaySetsForSeries);
      && row.Success?
      && row.value.displayLabel == value.labelValue.value
      && |row.value.displayText| > 0
      && row.value.displayText[0] == value.description
  {
    var u := EditSubmit(m, "save", value).value.update.value;
    assert u.referenceSeriesUID == m.referenceSeriesUID;
  }
}
