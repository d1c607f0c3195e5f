/**
 The save-report step of the measurement-tracking workflow: which viewport and
 backup flag the request concerns, the arguments handed to the
 `storeMeasurements` command, and how the returned promise settles.

 The browser and the report pipeline are parameters: the stored user details
 and their JSON parse, the current timestamp, the next SR series number, and
 the outcome of creating the report from the command arguments.
 */
module PromptSaveReport {
  import opened Common
  import opened Measurements
  import TrackingPanel
  import opened PromptBeginTracking

  /** The `data` object of the save event. */
  datatype EventData = EventData(
    viewportId: Option<string>,
    isBackupSave: Option<bool>,
    StudyInstanceUID: Option<string>,
    SeriesInstanceUID: Option<string>)

  /** The save event: its own viewport and backup flag, and its optional `data`. */
  datatype SaveEvent = SaveEvent(viewportId: Option<string>, isBackupSave: Option<bool>, data: Option<EventData>)

  /** The tracking context: the tracked study and series. */
  datatype TrackingContext = TrackingContext(trackedStudy: Option<string>, trackedSeries: seq<string>)

  /**
   A field of the event, falling back to the same field of `evt.data` when the
   event's own is undefined. Reading through an undefined `data` throws.
   */
  function FromEventOrData<T>(own: Option<T>, data: Option<EventData>, field: EventData -> Option<T>): (r: Result<Option<T>>)
    ensures own.Some? ==> r == Success(own)
    ensures own.None? && data.Some? ==> r == Success(field(data.value))
    ensures r.Failure? <==> own.None? && data.None?
  {
    if own.Some? then Success(own)
    else if data.None? then Failure("TypeError: Cannot read properties of undefined")
    else Success(field(data.value))
  }

  function DataViewportId(d: EventData): Option<string> { d.viewportId }
  function DataIsBackupSave(d: EventData): Option<bool> { d.isBackupSave }

  /** The logged-in user as stored in the browser. */
  datatype User = User(name: Option<string>, id: Option<string>)

  /** The arguments of the `storeMeasurements` command. */
  datatype StoreArgs = StoreArgs(
    measurementData: seq<Measurement>,
    dataSource: Option<string>,
    additionalFindingTypes: seq<string>,
    SeriesDescription: string,
    SeriesNumber: int,
    user: Option<User>)

  const SeriesDescriptionPrefix := "Research Derived Series - "

  /** `dataSources[0]`: the first registered data source, `undefined` when none is registered. */
  function FirstDataSource(dataSources: seq<string>): (d: Option<string>)
    ensures d.Some? <==> |dataSources| > 0
    ensures d.Some? ==> d.value == dataSources[0]
  {
    if |dataSources| == 0 then None else Some(dataSources[0])
  }

  /**
   The command arguments: the tracked measurements, the first registered data
   source (data sources are identified by name), arrow annotations as the
   additional finding type, a series description stamped with the time, the
   next SR series number and the stored user.
   */
  function ReportArgs(ms: seq<Measurement>, ctx: TrackingContext, dataSources: seq<string>, timestamp: string, seriesNumber: int, user: Option<User>): (a: StoreArgs)
    ensures a.measurementData == TrackingPanel.TrackedMeasurements(ms, ctx.trackedStudy, ctx.trackedSeries)
    ensures a.dataSource == FirstDataSource(dataSources)
    ensures a.additionalFindingTypes == ["ArrowAnnotate"]
    ensures StartsWith(a.SeriesDescription, SeriesDescriptionPrefix)
    ensures a.SeriesDescription[|SeriesDescriptionPrefix|..] == timestamp
    ensures a.SeriesNumber == seriesNumber && a.user == user
  {
    var description := SeriesDescriptionPrefix + timestamp;
    assert description[..|SeriesDescriptionPrefix|] == SeriesDescriptionPrefix;
    StoreArgs(TrackingPanel.TrackedMeasurements(ms, ctx.trackedStudy, ctx.trackedSeries),
              FirstDataSource(dataSources), ["ArrowAnnotate"], description, seriesNumber, user)
  }

  /** The record the prompt resolves with. */
  datatype SaveResponse = SaveResponse(
    userResponse: Response,
    createdDisplaySetInstanceUIDs: seq<string>,
    StudyInstanceUID: Option<string>,
    SeriesInstanceUID: Option<string>,
    viewportId: Option<string>,
    isBackupSave: Option<bool>)

  /**
   The returned promise: resolved with a response, or never settled. A failure
   inside the asynchronous executor is neither resolved nor rejected, so the
   promise stays pending.
   */
  datatype PromiseState = Pending | Resolved(response: SaveResponse)

  /** The browser's stored user entry and its JSON parse (`None` where `JSON.parse` throws). */
  datatype StoredUser = StoredUser(json: Option<string>, parse: string -> Option<Option<User>>)

  /**
   `promptSaveReport`. Deriving the viewport and backup flag happens before the
   promise exists, so a failure there throws to the caller; every later failure
   leaves the promise pending. `createReport` stands for the report pipeline,
   returning the created display sets or `None` when it rejects.
   */
  function SaveReport(ms: seq<Measurement>, ctx: TrackingContext, dataSources: seq<string>, evt: SaveEvent, stored: StoredUser,
                      timestamp: string, seriesNumber: int,
                      createReport: StoreArgs -> Option<seq<string>>): (r: Result<PromiseState>)
    ensures r.Failure? <==> evt.data.None? && (evt.viewportId.None? || evt.isBackupSave.None?)
    ensures r.Success? && r.value.Resolved? ==>
      var resp := r.value.response;
      && resp.userResponse == CreateReport
      && resp.viewportId == FromEventOrData(evt.viewportId, evt.data, DataViewportId).value
      && resp.isBackupSave == FromEventOrData(evt.isBackupSave, evt.data, DataIsBackupSave).value
      && resp.StudyInstanceUID == (if evt.data.Some? then evt.data.value.StudyInstanceUID else None)
      && resp.SeriesInstanceUID == (if evt.data.Some? then evt.data.value.SeriesInstanceUID else None)
  {
    match FromEventOrData(evt.viewportId, evt.data, DataViewportId)
    case Failure(e) => Failure(e)
    case Success(viewportId) =>
      match FromEventOrData(evt.isBackupSave, evt.data, DataIsBackupSave)
      case Failure(e) => Failure(e)
      case Success(isBackupSave) =>
        var user := if Truthy(stored.json) then stored.parse(stored.json.value) else Some(None);
        if user.None? then Success(Pending)
        else
          var args := ReportArgs(ms, ctx, dataSources, timestamp, seriesNumber, user.value);
          match createReport(args)
          case None => Success(Pending)
          case Some(created) =>
            var study := if evt.data.Some? then evt.data.value.StudyInstanceUID else None;
            var series := if evt.data.Some? then evt.data.value.SeriesInstanceUID else None;
            Success(Resolved(SaveResponse(CreateReport, created, study, series, viewportId, isBackupSave)))
  }

  /**
   There is no cancel path: whenever the derivation succeeds, the prompt either
   resolves with "create report" and the created display sets, or stays
   pending exactly when the stored user cannot be parsed or the report is not
   created.
   */
  lemma SaveReportSettles(ms: seq<Measurement>, ctx: TrackingContext, dataSources: seq<string>, evt: SaveEvent, stored: StoredUser,
                          timestamp: string, seriesNumber: int, createReport: StoreArgs -> Option<seq<string>>)
    requires SaveReport(ms, ctx, dataSources, evt, stored, timestamp, seriesNumber, createReport).Success?
    ensures var r := SaveReport(ms, ctx, dataSources, evt, stored, timestamp, seriesNumber, createReport).value;
      var user := if Truthy(stored.json) then stored.parse(stored.json.value) else Some(None);
      && (r.Pending? <==> user.None? || createReport(ReportArgs(ms, ctx, dataSources, timestamp, seriesNumber, user.value)).None?)
      && (r.Resolved? ==>
            r.response.userResponse != Cancel &&
            r.response.createdDisplaySetInstanceUIDs == createReport(ReportArgs(ms, ctx, dataSources, timestamp, seriesNumber, user.value)).value)
  {
  }

  /** The report saves exactly the measurements the panel lists. */
  lemma ReportSavesDisplayedMeasurements(ms: seq<Measurement>, ctx: TrackingContext, dataSources: seq<string>, timestamp: string, seriesNumber: int, user: Option<User>)
    ensures forall m :: m in ReportArgs(ms, ctx, dataSources, timestamp, seriesNumber, user).measurementData <==>
      m in ms && TrackingPanel.IsTracked(m, ctx.trackedStudy, ctx.trackedSeries)
  {
    var saved := ReportArgs(ms, ctx, dataSources, timestamp, seriesNumber, user).measurementData;
    forall m | m in ms && TrackingPanel.IsTracked(m, ctx.trackedStudy, ctx.trackedSeries)
      ensures m in saved
    {
      var i :| 0 <= i < |ms| && ms[i] == m;
    }
  }
}
