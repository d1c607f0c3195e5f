/**
 The begin-tracking step of the measurement-tracking workflow: the response
 codes the workflow prompts resolve with, the prompt that starts tracking a
 series, and the (currently unused) "track measurements for this series?"
 viewport dialog.
 */
module PromptBeginTracking {
  import opened Common

  /** The prompt responses. */
  datatype Response = NoNever | Cancel | CreateReport | AddSeries | SetStudyAndSeries

  /** The numeric code of each response. */
  function Code(r: Response): int {
    match r
    case NoNever => -1
    case Cancel => 0
    case CreateReport => 1
    case AddSeries => 2
    case SetStudyAndSeries => 3
  }

  /** Reading a numeric code back as a response. */
  function FromCode(code: int): (r: Option<Response>)
    ensures r.Some? <==> -1 <= code <= 3
  {
    if code == -1 then Some(NoNever)
    else if code == 0 then Some(Cancel)
    else if code == 1 then Some(CreateReport)
    else if code == 2 then Some(AddSeries)
    else if code == 3 then Some(SetStudyAndSeries)
    else None
  }

  /** The codes identify the responses: decoding inverts encoding, in both directions, so no two share a code. */
  lemma CodesRoundTrip(r: Response, code: int)
    ensures FromCode(Code(r)) == Some(r)
    ensures FromCode(code) == Some(r) ==> Code(r) == code
  {
  }

  lemma CodesDistinct(r1: Response, r2: Response)
    requires r1 != r2
    ensures Code(r1) != Code(r2)
  {
    CodesRoundTrip(r1, Code(r2));
  }

  /** The event the prompt is sent: the study, series and viewport it concerns. */
  datatype TrackingEvent = TrackingEvent(
    StudyInstanceUID: Option<string>,
    SeriesInstanceUID: Option<string>,
    viewportId: Option<string>)

  /** The record the prompt resolves with. */
  datatype TrackingResponse = TrackingResponse(
    userResponse: Response,
    StudyInstanceUID: Option<string>,
    SeriesInstanceUID: Option<string>,
    viewportId: Option<string>)

  /**
   `promptBeginTracking`: no dialog is shown; the prompt resolves at once with
   "set study and series" and the event's study, series and viewport.
   */
  function BeginTracking(evt: TrackingEvent): (r: TrackingResponse)
    ensures r.userResponse == SetStudyAndSeries
    ensures r.StudyInstanceUID == evt.StudyInstanceUID
    ensures r.SeriesInstanceUID == evt.SeriesInstanceUID
    ensures r.viewportId == evt.viewportId
  {
    TrackingResponse(SetStudyAndSeries, evt.StudyInstanceUID, evt.SeriesInstanceUID, evt.viewportId)
  }

  // ---------------------------------------------------------------------------
  // _askTrackMeasurements
  // ---------------------------------------------------------------------------

  /** The dialog's buttons, as (label, value) in display order. */
  const AskTrackActions: seq<(string, Response)> :=
    [("No", Cancel), ("No, do not ask again", NoNever), ("Yes", SetStudyAndSeries)]

  /** The viewport dialog and the promise behind it: whether the dialog shows, and what the promise settled with. */
  datatype AskState = AskState(visible: bool, settled: Option<Response>)

  const AskOpened := AskState(true, None)

  /** What the user can do: submit a button's value, or click outside the dialog. */
  datatype AskEvent = Submitted(value: Response) | OutsideClick

  /**
   Every event hides the dialog and resolves the promise: a submit with the
   chosen value, an outside click with "cancel". A promise settles once, so a
   later resolution is ignored.
   */
  function AskStep(s: AskState, e: AskEvent): (t: AskState)
    ensures !t.visible && t.settled.Some?
    ensures s.settled.Some? ==> t.settled == s.settled
    ensures s.settled.None? && e.Submitted? ==> t.settled == Some(e.value)
    ensures s.settled.None? && e.OutsideClick? ==> t.settled == Some(Cancel)
  {
    var resolution := match e
      case Submitted(v) => v
      case OutsideClick => Cancel;
    AskState(false, if s.settled.Some? then s.settled else Some(resolution))
  }

  function AskRun(s: AskState, es: seq<AskEvent>): AskState
    decreases |es|
  {
    if |es| == 0 then s else AskRun(AskStep(s, es[0]), es[1..])
  }

  /** The first answer decides: whatever follows, the promise keeps the value of the first event. */
  lemma {:induction false} FirstAnswerDecides(e: AskEvent, rest: seq<AskEvent>)
    ensures AskRun(AskOpened, [e] + rest).settled == AskStep(AskOpened, e).settled
    ensures !AskRun(AskOpened, [e] + rest).visible
  {
    assert ([e] + rest)[1..] == rest;
    SettledStaysSettled(AskStep(AskOpened, e), rest);
  }

  lemma {:induction false} SettledStaysSettled(s: AskState, es: seq<AskEvent>)
    requires s.settled.Some? && !s.visible
    ensures AskRun(s, es) == s
    decreases |es|
  {
    if |es| > 0 {
      assert AskStep(s, es[0]) == s;
      SettledStaysSettled(s, es[1..]);
    }
  }

  /**
   The promise tells the buttons apart: pressing two buttons of the open dialog
   settles it the same way exactly when they are the same button, and a click
   outside the dialog settles it as "No" does.
   */
  lemma ButtonsAreDistinguishable(i: nat, j: nat)
    requires i < |AskTrackActions| && j < |AskTrackActions|
    ensures AskStep(AskOpened, Submitted(AskTrackActions[i].1)).settled == AskStep(AskOpened, Submitted(AskTrackActions[j].1)).settled
      <==> i == j
    ensures AskStep(AskOpened, OutsideClick) == AskStep(AskOpened, Submitted(AskTrackActions[0].1))
  {
  }
}
