/**
 The measurement panel of the cornerstone extension: which rows it shows, in
 which order, what renaming a measurement writes back, and what a click does.
 */
module CornerstonePanel {
  import opened Common
  import opened Measurements
  import opened InputDialogs

  /** A row is shown only when it has a referenced image. */
  predicate HasImage(d: DisplayMeasurement) {
    Truthy(d.referencedImageId)
  }

  predicate IsShownMeasurement(d: DisplayMeasurement) {
    IsNotPoint(d) && HasImage(d)
  }

  predicate IsShownFinding(d: DisplayMeasurement) {
    IsPoint(d) && HasImage(d)
  }

  /** "measurements": the non-point rows with a referenced image, in order. */
  function ShownMeasurements(ds: seq<DisplayMeasurement>): (r: seq<DisplayMeasurement>)
    ensures forall i :: 0 <= i < |r| ==> r[i] in ds && IsNotPoint(r[i]) && HasImage(r[i])
    ensures forall i :: 0 <= i < |ds| && IsNotPoint(ds[i]) && HasImage(ds[i]) ==> ds[i] in r
  {
    Filter(ds, IsShownMeasurement)
  }

  /** "additionalFindings": the point rows with a referenced image, in order. */
  function AdditionalFindings(ds: seq<DisplayMeasurement>): (r: seq<DisplayMeasurement>)
    ensures forall i :: 0 <= i < |r| ==> r[i] in ds && IsPoint(r[i]) && HasImage(r[i])
    ensures forall i :: 0 <= i < |ds| && IsPoint(ds[i]) && HasImage(ds[i]) ==> ds[i] in r
  {
    Filter(ds, IsShownFinding)
  }

  /** The table data: the measurements, then the additional findings. */
  function TableData(ds: seq<DisplayMeasurement>): seq<DisplayMeasurement> {
    ShownMeasurements(ds) + AdditionalFindings(ds)
  }

  /** Splitting by point type within the rows that have an image. */
  lemma {:induction false} ImageRowsSplit(ds: seq<DisplayMeasurement>)
    ensures Filter(Filter(ds, HasImage), IsNotPoint) == ShownMeasurements(ds)
    ensures Filter(Filter(ds, HasImage), IsPoint) == AdditionalFindings(ds)
    decreases |ds|
  {
    if |ds| > 0 {
      ImageRowsSplit(ds[1..]);
    }
  }

  /** The table shows every row that has a referenced image exactly once, and no other row. */
  lemma TableDataIsImageRows(ds: seq<DisplayMeasurement>)
    ensures multiset(TableData(ds)) == multiset(Filter(ds, HasImage))
  {
    ImageRowsSplit(ds);
    FilterComplementPermutation(Filter(ds, HasImage), IsNotPoint, IsPoint);
  }

  /** Every row of the table has a referenced image, and all non-point rows come before all point rows. */
  lemma TableDataGroupsPoints(ds: seq<DisplayMeasurement>)
    ensures forall i :: 0 <= i < |TableData(ds)| ==> HasImage(TableData(ds)[i])
    ensures forall i, j :: 0 <= i < j < |TableData(ds)| && IsPoint(TableData(ds)[i]) ==> IsPoint(TableData(ds)[j])
  {
    var shown := ShownMeasurements(ds);
    var extra := AdditionalFindings(ds);
    var t := shown + extra;
    forall i | 0 <= i < |t|
      ensures HasImage(t[i])
      ensures i < |shown| ==> !IsPoint(t[i])
      ensures i >= |shown| ==> IsPoint(t[i])
    {
      if i < |shown| {
        assert t[i] == shown[i];
      } else {
        assert t[i] == extra[i - |shown|];
      }
    }
  }

  /** Within each group, the table keeps the order in which the rows with an image arrived. */
  lemma TableDataKeepsGroupOrder(ds: seq<DisplayMeasurement>)
    ensures Filter(TableData(ds), IsNotPoint) == Filter(Filter(ds, HasImage), IsNotPoint)
    ensures Filter(TableData(ds), IsPoint) == Filter(Filter(ds, HasImage), IsPoint)
  {
    ImageRowsSplit(ds);
    var shown := ShownMeasurements(ds);
    var extra := AdditionalFindings(ds);
    assert forall i :: 0 <= i < |shown| ==> IsNotPoint(shown[i]);
    KeepsGroupOrder(shown, extra);
  }

  /**
   The item-click handler is only reached through "jump to image", which
   always passes `isActive = true`, so a click never changes which rows are
   active.
   */
  lemma JumpNeverChangesActivity(ds: seq<DisplayMeasurement>, uid: string)
    ensures SelectOnly(ds, uid, true) == Success(ds)
  {
  }

  /**
   The finding sites after a rename to `newLabel`: the first site is replaced by
   a copy carrying the new label as its meaning and text, the rest are kept. An
   empty list gains a site with only meaning and text (the copy of a missing
   site); no list at all gains a free-text site.
   */
  function RenamedSites(sites: Option<seq<CodedSite>>, newLabel: Option<string>): (r: seq<CodedSite>)
    ensures |r| >= 1 && r[0].codeMeaning == newLabel && r[0].text == newLabel
    ensures sites.None? ==> r == [FreeTextSite(newLabel)]
    ensures sites == Some([]) ==> r == [CodedSite(None, None, newLabel, newLabel)]
    ensures sites.Some? && |sites.value| > 0 ==>
      && |r| == |sites.value|
      && r[0].codeValue == sites.value[0].codeValue
      && r[0].codingSchemeDesignator == sites.value[0].codingSchemeDesignator
      && r[1..] == sites.value[1..]
  {
    match sites
    case None => [FreeTextSite(newLabel)]
    case Some(s) =>
      if |s| == 0 then [CodedSite(None, None, newLabel, newLabel)]
      else [s[0].(codeMeaning := newLabel, text := newLabel)] + s[1..]
  }

  /** A measurement-service `update(uid, measurement, notify)` call. */
  datatype Update = Update(uid: string, measurement: Measurement, notify: bool)

  /**
   `renameMeasurement`: open the label popup on the measurement, and when it
   resolves, write the new label into the finding sites and update the
   measurement with notification. A rejected popup issues no update.
   */
  function Rename(m: Measurement, actionText: string, value: PopupValue): (r: Option<Update>)
    ensures r.Some? <==> actionText == "Save"
    ensures r.Some? ==>
      && r.value.uid == m.uid
      && r.value.notify
      && r.value.measurement.labelText == value.name
      && r.value.measurement.findingSites == Some(RenamedSites(m.findingSites, value.name))
      && r.value.measurement.(labelText := m.labelText, findingSites := m.findingSites) == m
  {
    match LabelPopupSubmit(m, actionText, value).settled
    case Success(relabelled) =>
      Some(Update(m.uid, relabelled.(findingSites := Some(RenamedSites(relabelled.findingSites, relabelled.labelText))), true))
    case Failure(_) => None
  }

  /**
   After a rename to a non-empty name, the renamed measurement is shown with
   that name as its label and as the text of its first finding site.
   */
  lemma RenameIsShown(m: Measurement, name: string)
    requires name != ""
    ensures var u := Rename(m, "Save", PopupPick(name));
      && u.Some?
      && FirstSiteText(u.value.measurement) == Some(name)
      && u.value.measurement.labelText == Some(name)
  {
  }
}
