/**
 The measurement records the two measurement panels read from the measurement
 service, and the display entries they render. Only the fields the panels touch
 are kept; an absent JavaScript property is `None`.
 */
module Measurements {
  import opened Common

  /** A coded finding site or finding: `{CodeValue, CodingSchemeDesignator, CodeMeaning, text}`. */
  datatype CodedSite = CodedSite(
    codeValue: Option<string>,
    codingSchemeDesignator: Option<string>,
    codeMeaning: Option<string>,
    text: Option<string>)

  /** A measurement as the measurement service stores it. */
  datatype Measurement = Measurement(
    uid: string,
    labelText: Option<string>,
    description: Option<string>,
    measurementType: string,
    selected: bool,
    displayText: Option<seq<string>>,
    findingSites: Option<seq<CodedSite>>,
    finding: Option<CodedSite>,
    referenceStudyUID: string,
    referenceSeriesUID: string)

  /** A row of a measurement table. */
  datatype DisplayMeasurement = DisplayMeasurement(
    uid: string,
    displayLabel: string,
    baseLabel: Option<string>,
    measurementType: string,
    displayText: seq<Option<string>>,
    isActive: bool,
    findingSites: Option<seq<CodedSite>>,
    referencedImageId: Option<string>)

  /** The measurement service's value type of a point annotation (`VALUE_TYPES.POINT`). */
  const Point := "value_type::point"

  predicate IsPoint(d: DisplayMeasurement) {
    d.measurementType == Point
  }

  predicate IsNotPoint(d: DisplayMeasurement) {
    d.measurementType != Point
  }

  /** Splitting a non-point run followed by a point run by type gives back the two runs. */
  lemma KeepsGroupOrder(rows: seq<DisplayMeasurement>, findings: seq<DisplayMeasurement>)
    requires forall i :: 0 <= i < |rows| ==> IsNotPoint(rows[i])
    requires forall i :: 0 <= i < |findings| ==> IsPoint(findings[i])
    ensures Filter(rows + findings, IsNotPoint) == rows
    ensures Filter(rows + findings, IsPoint) == findings
  {
    FilterAppend(rows, findings, IsNotPoint);
    FilterAppend(rows, findings, IsPoint);
    FilterAll(rows, IsNotPoint);
    FilterNone(findings, IsNotPoint);
    FilterNone(rows, IsPoint);
    FilterAll(findings, IsPoint);
  }

  /** The finding site both panels create when a measurement has none. */
  function FreeTextSite(meaning: Option<string>): (site: CodedSite)
    ensures site.codeMeaning == meaning && site.text == meaning
    ensures site.codeValue == Some("CORNERSTONEFREETEXT")
    ensures site.codingSchemeDesignator == Some("CORNERSTONEJS")
  {
    CodedSite(Some("CORNERSTONEFREETEXT"), Some("CORNERSTONEJS"), meaning, meaning)
  }

  /** The text of the first finding site, if there is one. */
  function FirstSiteText(m: Measurement): Option<string> {
    match m.findingSites
    case Some(sites) => if |sites| > 0 then sites[0].text else None
    case None => None
  }

  predicate HasUid(ds: seq<DisplayMeasurement>, uid: string) {
    exists i :: 0 <= i < |ds| && ds[i].uid == uid
  }

  /**
   The item-click handler of both panels: clicking an entry that is not active
   makes every entry with that uid active and every other entry inactive;
   clicking an active one changes nothing. The source dereferences the entry it
   looked up, so an unknown uid throws.
   */
  function SelectOnly(ds: seq<DisplayMeasurement>, uid: string, isActive: bool): (r: Result<seq<DisplayMeasurement>>)
    ensures isActive ==> r == Success(ds)
    ensures !isActive ==> (r.Failure? <==> !HasUid(ds, uid))
    ensures r.Success? ==> |r.value| == |ds|
    ensures r.Success? && !isActive ==>
      forall i :: 0 <= i < |ds| ==>
        r.value[i].isActive == (ds[i].uid == uid) && r.value[i].(isActive := ds[i].isActive) == ds[i]
  {
    if isActive then Success(ds)
    else if !HasUid(ds, uid) then Failure("TypeError: Cannot set properties of undefined (setting 'isActive')")
    else Success(seq(|ds|, i requires 0 <= i < |ds| => ds[i].(isActive := ds[i].uid == uid)))
  }

  predicate UniqueUids(ds: seq<DisplayMeasurement>) {
    forall i, j :: 0 <= i < j < |ds| ==> ds[i].uid != ds[j].uid
  }

  /** With distinct uids, a click on an inactive entry leaves exactly one entry active: the clicked one. */
  lemma SelectOnlyLeavesOneActive(ds: seq<DisplayMeasurement>, uid: string)
    requires UniqueUids(ds)
    requires HasUid(ds, uid)
    ensures var r := SelectOnly(ds, uid, false);
      && r.Success?
      && exists i :: 0 <= i < |ds| && ds[i].uid == uid && r.value[i].isActive &&
           forall j :: 0 <= j < |ds| && j != i ==> !r.value[j].isActive
  {
    var r := SelectOnly(ds, uid, false).value;
    var i :| 0 <= i < |ds| && ds[i].uid == uid;
    forall j | 0 <= j < |ds| && j != i
      ensures !r[j].isActive
    {
      if j < i {
        assert ds[j].uid != ds[i].uid;
      } else {
        assert ds[i].uid != ds[j].uid;
      }
    }
  }

  /** Clicking the same entry twice leaves the table as the first click did. */
  lemma SelectOnlyIdempotent(ds: seq<DisplayMeasurement>, uid: string)
    requires SelectOnly(ds, uid, false).Success?
    ensures SelectOnly(SelectOnly(ds, uid, false).value, uid, false) == SelectOnly(ds, uid, false)
  {
    var once := SelectOnly(ds, uid, false).value;
    var i :| 0 <= i < |ds| && ds[i].uid == uid;
    assert once[i].uid == uid;
    var twice := SelectOnly(once, uid, false).value;
    assert twice == once;
  }
}
