# A verified model of the viewer's decision logic

This project is a Dafny model of the decision logic in an OHIF-based DICOM
viewer. The viewer is a React application. Most of it configures external
engines: Cornerstone rendering, dcmjs, and the measurement, dialog and toolbar
services. What remains is a set of small, sequential, pure decisions, and
those are modelled here:

- **Bulk-data URI resolution** (`BulkDataUri`). A DICOM JSON `BulkDataURI`
  (DICOM PS3.18 Annex F) is rewritten into a fetchable URL by three ordered
  rules:
  - an absolute URI has its host replaced;
  - a study- or series-relative URI gets the matching path prefix;
  - a server-root-relative URI gets the configured origin.

  URL parsing is reduced to `scheme://authority path`.
- **The measurement panels** (`Measurements`, `TrackingPanel`,
  `CornerstonePanel`):
  - which measurements are listed;
  - the label fallback chain and the detail lines of a row;
  - the point / non-point partition of the table;
  - single-row selection;
  - the finding-site update on edit and on rename.
- **The tracking workflow prompts** (`PromptBeginTracking`,
  `PromptSaveReport`):
  - the response codes;
  - the begin-tracking response;
  - the event-field fallback;
  - the arguments of the report command, and how its promise settles.
- **The annotation dialogs** (`InputDialogs`, `MicroscopyDialog`):
  - the submit handlers: save, cancel, validate, dismiss;
  - the search bars, as transition functions over their React state, driven
    by the events React and `fetch` would deliver.
- **Microscopy commands** (`MicroscopyCommands`):
  - the interaction bindings for each tool;
  - the decoration of a report dataset;
  - the delete and relabel guards.
- **The study browser** (`ThumbnailList`, `ThumbnailListNext`, `Thumbnail`):
  - the newest structured report, which is opened automatically;
  - which thumbnails are drawn, and how;
  - modality tooltips;
  - the bounded search for the viewport element;
  - double-tap detection, the drag guard and the renderer choice.
- **Small components** (`DataRow`, `ToolbarButtons`, `ViewerHeader`):
  - the detail-line helpers of a data row, which the row itself never calls;
  - the toolbar command builders;
  - the return navigation, the status classification and the menu of the
    viewer header.

How JavaScript values are represented:

- A JavaScript `undefined` is `Option.None`.
- A string is truthy when it is present and non-empty (`Common.Truthy`).
- An exception is a `Result.Failure`.
- The collaborators the code calls are function parameters. These include the
  measurement and display-set services, `fetch`, `localStorage`, the clock,
  the report pipeline and HTML decoding.

Behaviour worth noting, where the code differs from what one might expect
(the model follows the code):

- **The absolute BulkDataURI rule is not idempotent.** It prepends
  `/dcm4chee-arc/aets/DCM4CHEE/rs/` to the URL's pathname, which itself
  starts with `/`, so the result contains `rs//`. A second pass inserts the
  prefix again.
- **An unparseable URL is an error.** `new URL` throws on an unparseable root
  or URI (for example a server-relative root under the absolute rule), and
  nothing catches it.
- **The save-report prompt has no cancel path.** It always resolves with
  "create report". A failure inside its asynchronous executor leaves the
  promise pending.
- **The microscopy search bar queries the input as it is now.** It uses the
  current input text, not the debounced term that triggered the fetch.

## Model

| member | source | states |
|---|---|---|
| BulkDataUri.ParseUrl | extensions/default/src/DicomWebDataSource/utils/fixBulkDataURI.ts:24-26 | A successful parse of a URL string yields a valid scheme, a non-empty authority free of `/?#`, and a path free of query and fragment that starts with `/` (never empty for a special scheme); the string starts with `scheme://authority` |
| BulkDataUri.FixBulkDataUri | extensions/default/src/DicomWebDataSource/utils/fixBulkDataURI.ts:19-54 | Rewriting fails exactly when an absolute URI or its root does not parse, or a root-relative URI meets an "http" root that does not parse; only the URI changes; an absolute URI becomes origin(root) + retrieval path + its pathname; a relative URI gets the study path, the series path (hint "series", unset or empty) or stays as it is (any other hint); a root-relative URI gets the root's origin when the root starts with "http" |
| BulkDataUri.ReparseOrigin | extensions/default/src/DicomWebDataSource/utils/fixBulkDataURI.ts:29 | The origin of a parsed special URL followed by an absolute path parses back to the same scheme and authority, with that path |
| BulkDataUri.AppendKeepsOrigin | extensions/default/src/DicomWebDataSource/utils/fixBulkDataURI.ts:36-41 | Appending a `/`-led suffix to a parseable root keeps its scheme and authority |
| BulkDataUri.RelativeRuleOrigin | extensions/default/src/DicomWebDataSource/utils/fixBulkDataURI.ts:34-43 | With a parseable root and a recognised hint, a relative URI resolves to a URL on the root's scheme and authority |
| BulkDataUri.AbsoluteRuleOrigin | extensions/default/src/DicomWebDataSource/utils/fixBulkDataURI.ts:22-30 | With an http(s) root, a parseable absolute URI resolves to a URL that parses with the root's scheme and authority and the retrieval path plus the original pathname: the original host, port, query and fragment are dropped |
| BulkDataUri.RootRelativeRuleOrigin | extensions/default/src/DicomWebDataSource/utils/fixBulkDataURI.ts:47-53 | With an http(s) root, a `/`-led URI resolves to a URL with the root's scheme and authority and the URI as its path |
| BulkDataUri.ResolvedUriPointsAtConfiguredServer | extensions/default/src/DicomWebDataSource/utils/fixBulkDataURI.ts:19-54 | With an http(s) root and a recognised hint, every successfully resolved URI is a URL on the configured server (same scheme and authority), whichever rule fired |
| BulkDataUri.RelativeRootRejectsAbsoluteUri | extensions/default/src/DicomWebDataSource/utils/fixBulkDataURI.ts:22-26 | A server-relative root such as `/pacs/dicom-web` makes every absolute URI fail, because the root cannot be parsed as a URL |
| BulkDataUri.RelativeRootKeepsUrisRelative | extensions/default/src/DicomWebDataSource/utils/fixBulkDataURI.ts:33-53 | With a server-relative root and a recognised hint, every URI that resolves is server-relative |
| BulkDataUri.AbsoluteRuleDoublesSlash | extensions/default/src/DicomWebDataSource/utils/fixBulkDataURI.ts:29 | For an absolute URI with a special scheme, the result starts with origin(root) + `/dcm4chee-arc/aets/DCM4CHEE/rs//` |
| BulkDataUri.AbsoluteRuleNotIdempotent | extensions/default/src/DicomWebDataSource/utils/fixBulkDataURI.ts:22-30 | Resolving an absolute URI twice inserts the retrieval prefix twice, so the second result differs from the first |
| Common.ReadOnly | platform/ui-next/src/components/DataRow/DataRow.tsx:92-99 | The stored flag makes a component read-only exactly when the entry parses and its `readOnly` field is true |
| Measurements.FreeTextSite | extensions/cornerstone/src/panels/PanelMeasurement.tsx:63-70 | The site created when a measurement has none: code CORNERSTONEFREETEXT in scheme CORNERSTONEJS, with the given meaning and text |
| Measurements.SelectOnly | extensions/measurement-tracking/src/panels/PanelMeasurementTableTracking/index.tsx:322-331 | Clicking an active row changes nothing; clicking an inactive row fails exactly when no row has the uid, and otherwise marks exactly the rows with that uid active, leaving every other field as it was |
| Measurements.SelectOnlyLeavesOneActive | extensions/measurement-tracking/src/panels/PanelMeasurementTableTracking/index.tsx:322-331 | With distinct uids, a click leaves exactly one row active: the clicked one |
| Measurements.SelectOnlyIdempotent | extensions/measurement-tracking/src/panels/PanelMeasurementTableTracking/index.tsx:322-331 | Clicking the same row twice gives the table the first click gave |
| TrackingPanel.TrackedMeasurements | extensions/measurement-tracking/src/panels/PanelMeasurementTableTracking/index.tsx:145-148 | The listed measurements are exactly the stored ones of the tracked study and one of the tracked series |
| TrackingPanel.TrackedMeasurementsAppend | extensions/measurement-tracking/src/panels/PanelMeasurementTableTracking/index.tsx:229-233 | Listing keeps service order: measurements added later are listed after the current ones, which keep their places |
| TrackingPanel.NothingTrackedWithoutStudy | extensions/measurement-tracking/src/panels/PanelMeasurementTableTracking/index.tsx:146-148 | Without a tracked study no measurement is listed, whatever the series, given that every measurement carries a study UID |
| TrackingPanel.DisplayLabel | extensions/measurement-tracking/src/panels/PanelMeasurementTableTracking/index.tsx:420-421 | The row label is never empty: the measurement's label, else the finding's text, else the first site's text, else "(empty)", each taken only when non-empty |
| TrackingPanel.DisplayText | extensions/measurement-tracking/src/panels/PanelMeasurementTableTracking/index.tsx:422-429 | With finding sites the detail lines are their texts in order (an empty list gives none); otherwise the measurement's own display text, or nothing |
| TrackingPanel.MapToDisplay | extensions/measurement-tracking/src/panels/PanelMeasurementTableTracking/index.tsx:404-440 | Mapping fails exactly when the series' first display set is missing or has no `images` property (an empty `images` list passes); otherwise the row carries the uid, label, base label, type, detail lines, selection and sites of the measurement |
| TrackingPanel.MapAll | extensions/measurement-tracking/src/panels/PanelMeasurementTableTracking/index.tsx:150-152 | Mapping the list fails exactly when some measurement fails to map; otherwise it gives one row per measurement, in order |
| TrackingPanel.DisplayedRows | extensions/measurement-tracking/src/panels/PanelMeasurementTableTracking/index.tsx:145-153 | The panel throws exactly when some tracked measurement lies in a series whose first display set is missing or has no `images` property (an empty `images` list passes); otherwise it shows one row per tracked measurement, in the service's order, the i-th row being the i-th tracked measurement mapped for display |
| TrackingPanel.TableData | extensions/measurement-tracking/src/panels/PanelMeasurementTableTracking/index.tsx:333-356 | The table is a permutation of the rows in which no point row precedes a non-point row, and the non-point rows and the point rows each keep their original relative order; together these fix the table exactly |
| TrackingPanel.SaveDisabled | extensions/measurement-tracking/src/panels/PanelMeasurementTableTracking/index.tsx:371-373 | The save control is disabled exactly when there are no rows |
| TrackingPanel.EditInitialValue | extensions/measurement-tracking/src/panels/PanelMeasurementTableTracking/index.tsx:287-290 | The dialog opens on the label and the first site's text, each "" when missing or empty |
| TrackingPanel.SavedSites | extensions/measurement-tracking/src/panels/PanelMeasurementTableTracking/index.tsx:251-263 | A save writes the description into the first site's meaning and text and keeps the other sites; with no list it creates a free-text site; an empty list has no first site, so the save fails |
| TrackingPanel.EditSubmit | extensions/measurement-tracking/src/panels/PanelMeasurementTableTracking/index.tsx:248-276 | Any action but "save" only dismisses; "save" fails exactly on an empty site list, and otherwise updates the label, description and sites (nothing else) and dismisses |
| TrackingPanel.EditRoundTrip | extensions/measurement-tracking/src/panels/PanelMeasurementTableTracking/index.tsx:248-290 | Reopening the dialog after saving a non-empty label and description shows exactly what was saved |
| TrackingPanel.SavedEditIsDisplayed | extensions/measurement-tracking/src/panels/PanelMeasurementTableTracking/index.tsx:248-276 | After a save, the row shows the saved label and has the description as its first detail line |
| CornerstonePanel.ShownMeasurements | extensions/cornerstone/src/panels/PanelMeasurement.tsx:106-108 | "measurements" are exactly the non-point rows with a referenced image |
| CornerstonePanel.AdditionalFindings | extensions/cornerstone/src/panels/PanelMeasurement.tsx:109-111 | "additionalFindings" are exactly the point rows with a referenced image |
| CornerstonePanel.ImageRowsSplit | extensions/cornerstone/src/panels/PanelMeasurement.tsx:106-111 | The two lists are the rows with an image, split by point type, each in order |
| CornerstonePanel.TableDataIsImageRows | extensions/cornerstone/src/panels/PanelMeasurement.tsx:106-122 | The table holds every row with a referenced image exactly once, and no other row |
| CornerstonePanel.TableDataKeepsGroupOrder | extensions/cornerstone/src/panels/PanelMeasurement.tsx:106-122 | Within the non-point rows and within the point rows, the table keeps the order in which the rows with an image arrived |
| CornerstonePanel.TableDataGroupsPoints | extensions/cornerstone/src/panels/PanelMeasurement.tsx:122 | Every table row has a referenced image, and no point row precedes a non-point row |
| CornerstonePanel.JumpNeverChangesActivity | extensions/cornerstone/src/panels/PanelMeasurement.tsx:30-45 | Jumping to an image passes "active", so the click handler changes no row |
| CornerstonePanel.RenamedSites | extensions/cornerstone/src/panels/PanelMeasurement.tsx:56-71 | After a rename the first site has the new label as meaning and text and keeps its code; later sites are kept; an empty list gains a code-less site; no list gains a free-text site |
| CornerstonePanel.Rename | extensions/cornerstone/src/panels/PanelMeasurement.tsx:51-78 | An update is issued exactly when the popup is saved; it notifies and changes only the label and the finding sites |
| CornerstonePanel.RenameIsShown | extensions/cornerstone/src/panels/PanelMeasurement.tsx:51-78 | Renaming to a picked non-empty name makes that name the label and the first site's text |
| PromptBeginTracking.FromCode | extensions/measurement-tracking/src/contexts/TrackedMeasurementsContext/promptBeginTracking.js:3-9 | A code names a response exactly when it lies between -1 and 3 |
| PromptBeginTracking.CodesRoundTrip | extensions/measurement-tracking/src/contexts/TrackedMeasurementsContext/promptBeginTracking.js:3-9 | Reading a response's code back gives the response, and only its own code does |
| PromptBeginTracking.CodesDistinct | extensions/measurement-tracking/src/contexts/TrackedMeasurementsContext/promptBeginTracking.js:3-9 | Distinct responses have distinct codes |
| PromptBeginTracking.BeginTracking | extensions/measurement-tracking/src/contexts/TrackedMeasurementsContext/promptBeginTracking.js:11-23 | Beginning tracking always answers "set study and series" and copies study, series and viewport from the event |
| PromptBeginTracking.AskStep | extensions/measurement-tracking/src/contexts/TrackedMeasurementsContext/promptBeginTracking.js:48-63 | Every event hides the dialog and settles the promise: with the submitted value, or "cancel" on an outside click; a settled promise keeps its value |
| PromptBeginTracking.FirstAnswerDecides | extensions/measurement-tracking/src/contexts/TrackedMeasurementsContext/promptBeginTracking.js:48-63 | Whatever follows, the dialog's outcome is that of its first event |
| PromptBeginTracking.SettledStaysSettled | extensions/measurement-tracking/src/contexts/TrackedMeasurementsContext/promptBeginTracking.js:48-63 | Once settled and hidden, no sequence of events changes the dialog |
| PromptBeginTracking.ButtonsAreDistinguishable | extensions/measurement-tracking/src/contexts/TrackedMeasurementsContext/promptBeginTracking.js:28-47 | Two buttons of the open dialog settle the promise the same way exactly when they are the same button, and a click outside settles it as "No" does |
| PromptSaveReport.FromEventOrData | extensions/measurement-tracking/src/contexts/TrackedMeasurementsContext/promptSaveReport.js:7-8 | The event's own field wins; an undefined one falls back to the event data's field; reading through undefined data fails |
| PromptSaveReport.ReportArgs | extensions/measurement-tracking/src/contexts/TrackedMeasurementsContext/promptSaveReport.js:20-47 | The report command gets the tracked measurements, the first registered data source (undefined when there is none), "ArrowAnnotate" as additional finding type, a description made of the "Research Derived Series - " prefix and the timestamp, the next series number and the stored user |
| PromptSaveReport.SaveReport | extensions/measurement-tracking/src/contexts/TrackedMeasurementsContext/promptSaveReport.js:7-61 | The prompt throws exactly when the viewport or backup flag is undefined on an event without data; a resolved response is "create report" with the derived viewport and flag and the data's study and series |
| PromptSaveReport.SaveReportSettles | extensions/measurement-tracking/src/contexts/TrackedMeasurementsContext/promptSaveReport.js:15-60 | There is no cancel path: the promise stays pending exactly when the stored user does not parse or the report is not created, and otherwise resolves with the created display sets |
| PromptSaveReport.ReportSavesDisplayedMeasurements | extensions/measurement-tracking/src/contexts/TrackedMeasurementsContext/promptSaveReport.js:27-36 | The report saves exactly the measurements the tracking panel lists |
| InputDialogs.InitialLabel | extensions/default/src/utils/callInputDialog.tsx:152-160 | The input starts empty without data, with the data's text for an arrow annotation, and with its label otherwise |
| InputDialogs.SubmitInput | extensions/default/src/utils/callInputDialog.tsx:164-181 | The dialog stays open exactly on a save that fails validation; a callback is called exactly on a dismissing save or cancel, with the action's name; save reports the label, cancel reports "" |
| InputDialogs.KeyPress | extensions/default/src/utils/callInputDialog.tsx:214-217 | Enter, and only Enter, acts as a save of the current label |
| InputDialogs.LabellingDone | extensions/default/src/utils/callInputDialog.tsx:227-243 | A picked string is validated and saved; anything else cancels with ""; the dialog stays open exactly when validation fails |
| InputDialogs.AutocompleteAgreesWithInputDialog | extensions/default/src/utils/callInputDialog.tsx:164-243 | The autocomplete dialog does what the input dialog does on a save of the picked string, or on a cancel |
| InputDialogs.PopupInitialValue | extensions/default/src/utils/callInputDialog.tsx:283-286 | The popup opens with label and description both the first site's text (or "") and no picked name |
| InputDialogs.PopupPick | extensions/default/src/utils/callInputDialog.tsx:293 | Picking an entry replaces the whole value with its name |
| InputDialogs.LabelPopupSubmit | extensions/default/src/utils/callInputDialog.tsx:263-271 | The popup always dismisses; it resolves exactly on "Save", with only the label changed to the picked name, and rejects otherwise |
| InputDialogs.SaveWithoutPickClearsLabel | extensions/default/src/utils/callInputDialog.tsx:263-286 | Saving the popup without a pick clears the measurement's label |
| InputDialogs.Step | extensions/default/src/utils/callInputDialog.tsx:17-126 | A new debounced term starts over on page one with no entries and more expected; a completed request appends its page and expects more exactly when the page was non-empty; a scroll advances the page exactly when more may come, nothing is loading and the list is near its bottom, and otherwise changes nothing; a click on an entry puts its name in the input and closes and clears the list; only a new term or a scroll moves the page, and only a new term or a completed request changes whether more is expected |
| InputDialogs.Run | extensions/default/src/utils/callInputDialog.tsx:17-126 | Over any sequence of events: without a new debounced term the page never goes back and the term stays; once more is no longer expected (an empty page), no event but a new term or another completed request advances the page or re-enables loading |
| InputDialogs.PagesAccumulate | extensions/default/src/utils/callInputDialog.tsx:59-61 | Pages are appended in arrival order, and more is expected exactly when the last page was not empty |
| MicroscopyDialog.InitialValue | extensions/dicom-microscopy/src/utils/callInputDialog.tsx:149 | The dialog opens on the default value, with no label and no description |
| MicroscopyDialog.Pick | extensions/dicom-microscopy/src/utils/callInputDialog.tsx:179-182 | Picking a result sets label and description to its text and drops the value |
| MicroscopyDialog.Submit | extensions/dicom-microscopy/src/utils/callInputDialog.tsx:127-138 | Every action dismisses; save reports the label without validation, cancel reports "", anything else calls nothing |
| MicroscopyDialog.SubmitAgreesWithInputDialog | extensions/dicom-microscopy/src/utils/callInputDialog.tsx:127-138 | The microscopy dialog behaves as the default input dialog without validation, on every action |
| MicroscopyDialog.SaveWithoutPickReportsUndefined | extensions/dicom-microscopy/src/utils/callInputDialog.tsx:127-149 | Saving before a pick reports an undefined label |
| MicroscopyDialog.Step | extensions/dicom-microscopy/src/utils/callInputDialog.tsx:4-97 | Typing changes only the input; the debounce copies the input into the debounced term and nothing else; the fetch effect closes and clears the list exactly when the debounced term is empty, and otherwise leaves the state to the request; results replace the list and open it; a failed request changes nothing; a click on a listed result puts its text in the input and closes and clears the list, and a click past the list changes nothing; only the debounce changes the debounced term |
| MicroscopyDialog.QueryTerm | extensions/dicom-microscopy/src/utils/callInputDialog.tsx:19-50 | A fetch queries exactly when the debounced term is non-empty, and it queries the current input |
| MicroscopyDialog.EmptyTermClearsList | extensions/dicom-microscopy/src/utils/callInputDialog.tsx:44-49 | An empty debounced term closes and clears the list without a query |
| MicroscopyDialog.ClickPicksResult | extensions/dicom-microscopy/src/utils/callInputDialog.tsx:36-38 | Results replace the list; clicking one puts its text in the input, closes and clears the list, and a save then reports that text |
| MicroscopyDialog.QueryUsesCurrentInput | extensions/dicom-microscopy/src/utils/callInputDialog.tsx:22-28 | Text typed after the debounce fired is what gets queried |
| MicroscopyCommands.DrawOptions | extensions/dicom-microscopy/src/getCommandsModule.ts:142-162 | A draw tool draws its own geometry on the left button; only "line" fixes two points; "point" alone has no style and no vertex option |
| MicroscopyCommands.SetToolActive | extensions/dicom-microscopy/src/getCommandsModule.ts:125-195 | Draw tools get drawing, pan on middle and zoom on right; "dragPan" pans on left and middle; any other tool is bound to the left button with pan on middle; every list ends with zoom on the right button |
| MicroscopyCommands.ActiveToolRoundTrip | extensions/dicom-microscopy/src/getCommandsModule.ts:125-195 | The tool can be read back from its interactions |
| MicroscopyCommands.LeftButtonBoundOnce | extensions/dicom-microscopy/src/getCommandsModule.ts:125-195 | The left button is bound to exactly one interaction, the first |
| MicroscopyCommands.Decorate | extensions/dicom-microscopy/src/getCommandsModule.ts:47-72 | The character set becomes UTF-8 only when unset; with a user the author sequence becomes that user alone, without one it is kept; nothing else changes |
| MicroscopyCommands.DecorateIdempotent | extensions/dicom-microscopy/src/getCommandsModule.ts:47-72 | Decorating twice is decorating once |
| MicroscopyCommands.AuthorCarriesUser | extensions/dicom-microscopy/src/getCommandsModule.ts:52-72 | The author entry carries the user's name and id in the local scheme, typed as author |
| MicroscopyCommands.DeleteMeasurement | extensions/dicom-microscopy/src/getCommandsModule.ts:98-105 | Exactly the annotation of a given, known uid is removed; otherwise nothing changes |
| MicroscopyCommands.DeleteIdempotent | extensions/dicom-microscopy/src/getCommandsModule.ts:98-105 | Deleting twice is deleting once |
| MicroscopyCommands.SetLabelCallback | extensions/dicom-microscopy/src/getCommandsModule.ts:107-123 | Only "save" relabels and announces; relabelling a missing annotation fails; the other annotations are kept |
| MicroscopyCommands.SetLabelThroughDialog | extensions/dicom-microscopy/src/getCommandsModule.ts:107-123 | Saving a picked result labels the annotation with its text; saving without a pick leaves the label undefined |
| ThumbnailList.ReduceIsFirstMax | platform/ui/src/components/ThumbnailList/ThumbnailList.tsx:24-29 | The reduce picks the first thumbnail with the largest series number, and stays at its seed exactly when no thumbnail has one |
| ThumbnailList.LatestSrIsNewestReport | platform/ui/src/components/ThumbnailList/ThumbnailList.tsx:22-29 | The latest report is the first structured report with the largest series number, or the seed when no report is numbered |
| ThumbnailList.AutoOpen | platform/ui/src/components/ThumbnailList/ThumbnailList.tsx:34-41 | A render opens something exactly when annotations are not yet loaded and the latest report has a display set, and then it opens that display set |
| ThumbnailList.AutoOpenOpensNewestReport | platform/ui/src/components/ThumbnailList/ThumbnailList.tsx:22-41 | What opens automatically is a structured report of the list whose series number no other numbered report exceeds |
| ThumbnailList.RenderedThumbs | platform/ui/src/components/ThumbnailList/ThumbnailList.tsx:30-31 | The drawn thumbnails are exactly the ones that are not structured reports |
| ThumbnailList.RenderedAndReportsPartition | platform/ui/src/components/ThumbnailList/ThumbnailList.tsx:30-31 | Drawn thumbnails and reports together are a permutation of the list |
| ThumbnailList.RenderThumb | platform/ui/src/components/ThumbnailList/ThumbnailList.tsx:130-192 | Three component types render their component, active exactly when the uid is among the active ones; any other type renders nothing |
| ThumbnailList.ModalityTooltip | platform/ui/src/components/ThumbnailList/ThumbnailList.tsx:225-236 | The tooltip is "Unknown" exactly for modalities other than SR, SEG and RTSTRUCT |
| ThumbnailList.TooltipRoundTrip | platform/ui/src/components/ThumbnailList/ThumbnailList.tsx:225-236 | A known tooltip names its modality, so no two modalities share one |
| ThumbnailList.SetupAttempt | platform/ui/src/components/ThumbnailList/ThumbnailList.tsx:65-82 | Finding the element resets the count; a miss retries and counts while the guard allows, and gives up otherwise |
| ThumbnailList.RetriesFromCount | platform/ui/src/components/ThumbnailList/ThumbnailList.tsx:65-82 | From any count, the retries before giving up are the distance to the guard's bound |
| ThumbnailList.RetriesUntilGiveUp | platform/ui/src/components/ThumbnailList/ThumbnailList.tsx:73 | From a fresh start the search gives up after the limit's number of retries under `<`, one more under `<=` |
| ThumbnailListNext.Props | platform/ui-next/src/components/ThumbnailList/ThumbnailList.tsx:138-157 | A drawn thumbnail gets a non-zero instance count (its own unless missing or zero, else one), the list preset when it has no image, and is active exactly when its uid is among the active ones |
| ThumbnailListNext.Render | platform/ui-next/src/components/ThumbnailList/ThumbnailList.tsx:119-141 | One entry per thumbnail; an entry is drawn exactly when the thumbnail is visible |
| ThumbnailListNext.DrawnAreVisible | platform/ui-next/src/components/ThumbnailList/ThumbnailList.tsx:119-160 | What is drawn is exactly the visible thumbnails, in list order |
| ThumbnailListNext.VisibleThumbnails | platform/ui-next/src/components/ThumbnailList/ThumbnailList.tsx:139-141 | Every non-report is drawn; a report is drawn exactly when it is an image-label report |
| ThumbnailListNext.NoImageThumbnailsUseList | platform/ui-next/src/components/ThumbnailList/ThumbnailList.tsx:156-157 | A thumbnail without an image is drawn with the list renderer and marked as having no image |
| ThumbnailListNext.InclusiveGuardRetriesOnceMore | platform/ui-next/src/components/ThumbnailList/ThumbnailList.tsx:75 | The inclusive guard retries once more than the strict one |
| Thumbnail.TouchEnd | platform/ui-next/src/components/Thumbnail/Thumbnail.tsx:57-66 | A touch end is a double click exactly when the interval since the last tap is positive and under 300 ms; the tap time becomes now |
| Thumbnail.TouchesJudgedPairwise | platform/ui-next/src/components/Thumbnail/Thumbnail.tsx:57-66 | Each touch is judged against the touch just before it, whatever that one fired |
| Thumbnail.TapBurstRepeatsDoubleClick | platform/ui-next/src/components/Thumbnail/Thumbnail.tsx:55-64 | After a pause, a burst of taps each under 300 ms apart fires a click and then a double click for every later tap, since the tap time is not cleared after a double click |
| Thumbnail.CanDrag | platform/ui-next/src/components/Thumbnail/Thumbnail.tsx:50-52 | Dragging is allowed exactly when drag data is given with at least one key |
| Thumbnail.DataCy | platform/ui-next/src/components/Thumbnail/Thumbnail.tsx:323-327 | The no-image test id exactly for no-image thumbnails, the plain one otherwise |
| Thumbnail.RendererFor | platform/ui-next/src/components/Thumbnail/Thumbnail.tsx:338-339 | The image renderer exactly for an absent or "thumbnails" preset, the list renderer exactly for "list" |
| Thumbnail.RendererRoundTrip | platform/ui-next/src/components/Thumbnail/Thumbnail.tsx:338-339 | A preset that draws something is recovered from its renderer |
| DataRow.HandleAction | platform/ui-next/src/components/DataRow/DataRow.tsx:101-117 | Exactly the four action names reach a callback |
| DataRow.ActionRoundTrip | platform/ui-next/src/components/DataRow/DataRow.tsx:101-117 | Action names and callbacks correspond one to one |
| DataRow.Buttons | platform/ui-next/src/components/DataRow/DataRow.tsx:218-232 | No buttons when read-only; otherwise rename and delete, then color exactly when a color callback is given |
| DataRow.ButtonsNeverLock | platform/ui-next/src/components/DataRow/DataRow.tsx:218-232 | Every button reaches a callback and none toggles the lock |
| DataRow.Indent | platform/ui-next/src/components/DataRow/DataRow.tsx:164 | A line is indented one level exactly when it starts with two spaces |
| DataRow.RenderDetailText | platform/ui-next/src/components/DataRow/DataRow.tsx:125-152 | How `renderDetailText` lays out a line: an empty line is a spacer; a decoded line without a colon is kept whole; the indentation is two spaces per level |
| DataRow.LabelledIsPrefix | platform/ui-next/src/components/DataRow/DataRow.tsx:142-146 | A line with a colon shows a prefix of its decoded text: the colon-free name with its colon, then the colon-free value; what is cut off is empty or starts at the next colon |
| DataRow.RenderDetails | platform/ui-next/src/components/DataRow/DataRow.tsx:154-188 | What `renderDetails` computes: the first four lines (or all, when fewer), each rendered as its own detail text, inline; the ellipsis exactly when there are more; every line, rendered in order, in the tooltip. The row's JSX never calls it, so a data row renders no details |
| DataRow.PreviewIsTooltipPrefix | platform/ui-next/src/components/DataRow/DataRow.tsx:154-188 | The inline lines are the tooltip's first lines and the tooltip adds the hidden lines after them in order |
| ToolbarButtons.SetToolActiveCommands | modes/longitudinal/src/toolbarButtons.ts:42-60 | One activation of the tool per tool group, in group order |
| ToolbarButtons.EachGroupOnce | modes/longitudinal/src/toolbarButtons.ts:42-60 | The tool is activated in exactly the three groups, each once |
| ToolbarButtons.ZoomAndPanInEveryGroup | modes/longitudinal/src/toolbarButtons.ts:405-464 | Zoom and Pan are activated in every tool group |
| ToolbarButtons.WwwcPreset | modes/longitudinal/src/toolbarButtons.ts:24-40 | An action whose id is the preset number in decimal and whose single command sets the window level to the preset's entry (empty when missing) |
| ToolbarButtons.WindowLevelIdsDistinct | modes/longitudinal/src/toolbarButtons.ts:446-450 | The five preset items read back as one to five, so their ids are distinct |
| ToolbarButtons.MenuToolsArePaired | modes/longitudinal/src/toolbarButtons.ts:115-246 | Every measurement menu item activates its tool with its structured-report twin, except the freehand ROI, which activates only itself |
| ToolbarButtons.ToolbarToolsArePaired | modes/longitudinal/src/toolbarButtons.ts:251-403 | The same pairing holds for the stand-alone measurement buttons |
| ToolbarButtons.MeasurementItemsDistinct | modes/longitudinal/src/toolbarButtons.ts:115-246 | The menu lists each measurement tool once |
| ViewerHeader.DataSourceName | extensions/default/src/ViewerLayout/ViewerHeader.tsx:64-68 | The name is what follows the first '/' after position zero, or the whole path when there is none |
| ViewerHeader.ReturnNavigation | extensions/default/src/ViewerLayout/ViewerHeader.tsx:62-84 | Return goes to "/"; the data source is carried, first, exactly when the path names one that exists; the configuration URL is carried, last, exactly when it is non-empty |
| ViewerHeader.ReturnRecoversDataSource | extensions/default/src/ViewerLayout/ViewerHeader.tsx:62-84 | A path `/<route>/<rest>` returns with `<rest>` as data source when it exists |
| ViewerHeader.SingleSegmentHasNoDataSource | extensions/default/src/ViewerLayout/ViewerHeader.tsx:62-84 | A single-segment path carries no data source |
| ViewerHeader.ChangeStatus | extensions/default/src/ViewerLayout/ViewerHeader.tsx:14-46 | A failed request or any status but 404 and 202 is "Failed to post data"; on 404 and 202 the body is returned as read |
| ViewerHeader.ChangeStatusClassifies | extensions/default/src/ViewerLayout/ViewerHeader.tsx:34-45 | A body comes back only on 404 or 202, and any other error comes from reading such a body |
| ViewerHeader.MenuOptions | extensions/default/src/ViewerLayout/ViewerHeader.tsx:92-143 | About and Preferences first; Logout, last, exactly when OpenID Connect is configured |
| ViewerHeader.ShowsToolbar | extensions/default/src/ViewerLayout/ViewerHeader.tsx:52-60 | The toolbar shows unless the stored read-only flag is set |

## Left out

- URL parsing: only `scheme://authority path[?query][#fragment]` is accepted. The full WHATWG URL standard is not modelled: percent-encoding, host normalisation, default ports, `..` segments, and schemes without `//` (which the real constructor accepts).
- Origin and Pathname: origins are the scheme and authority as written, with no lower-casing or default-port removal. The authority keeps any userinfo (`user:pw@`), which the real `URL.origin` drops.
- BulkDataUri.FixBulkDataUri: returns the rewritten value instead of mutating it in place, and does not model the console logging.
- TrackingPanel.NothingTrackedWithoutStudy: every measurement is assumed to carry a study UID (`referenceStudyUID` is a string, never undefined). In the source, a measurement without one, in a tracked series, is listed when the tracked study is undefined, because `undefined === undefined` holds.
- JavaScript values of the wrong type are not modelled: a non-string URI, a non-boolean `readOnly`. Fields hold the type the code expects, or are undefined.
- ThumbnailList.LatestSr: series numbers are modelled as numbers only. The prop types also accept strings (`Types.StringNumber` in platform/ui/src/components/ThumbnailList/ThumbnailList.tsx:207, `PropTypes.any` in the ui-next list), and for strings the `>` of the reduce compares lexicographically, so "9" beats "10". The newest-report results do not cover string series numbers.
- Common.ReadOnly: a stored `readOnly` field is modelled as a boolean. Any other truthy value, and a failing `JSON.parse`, are not modelled.
- Measurements.SelectOnly: when the uid is missing, the source has already reset every row before it throws. The model returns only the failure, not that partial update.
- TrackingPanel.SavedSites: when the save throws on an empty site list, the description has not yet been written. The model returns only the failure.
- The annotation dialog's `onKeyPressHandler` in the tracking panel is never attached to anything, so it is not modelled.
- `jumpToImage`, `removeMeasurement`, toggle lock and visibility, and the export call are plain service calls. Only their effect on the selection is modelled.
- The float colour conversion in `changeColorMeasurement` (extensions/cornerstone/src/panels/PanelMeasurement.tsx:80-104) is floating point and a service call.
- The rest of the microscopy `storeMeasurements` uses identifiers that are never imported. Only the dataset decoration is modelled.
- `toggleOverlays`, `toggleAnnotations` and the remaining microscopy commands only call the microscopy service.
- ViewerHeader.ChangeStatus: the request itself (URL, method, headers, JSON body) is not modelled. Only the classification of its outcome is.
- Return navigation: `decodeURIComponent` of the query string is not modelled. The query is kept as an ordered list of entries.
- ViewerHeader.ReturnNavigation models the handler as written, but the header is given `isReturnEnabled={false}` (extensions/default/src/ViewerLayout/ViewerHeader.tsx:151). The header component of the second UI library calls the handler only when that flag is set, so in this build the return navigation is probably never reached. The header this file imports from the first UI library is not part of this model.
- Timers are not modelled as time: the 500 ms debounce, the auto-open delay and the retry delay are events of the state machines. Clearing a timeout on cleanup is not modelled.
- The network is not modelled: the ontology, SNOMED and contributor fetches. Their outcomes are events or parameters.
- `localStorage` is a parameter.
- The DOM is not modelled: the element search, listeners, `decodeHTML` and the clock. They are parameters or uninterpreted functions.
- The microscopy search bar's `loading` flag is not modelled. The dialog reads it to show a loading bar, but nothing sets it: both `setLoading` calls are commented out, so it stays false.
- React effect scheduling, re-renders and stale closures are not modelled.
- InputDialogs.Step: one fetch-effect event stands for the effect, and the request's answer is delivered as a separate event. Overlapping requests answered out of order are not modelled.
- The presentational components and their class names are not modelled: ThumbnailTracked, ThumbnailNoImage, MeasurementTable, Header, and the JSX layout.
- The toolbar service's button factory (`_createToolButton`, `ToolbarService._createButton`) is not modelled. A button is its id, its type and its commands.
- ToolbarButtons.WwwcPreset: titles, subtitles and icons of buttons are not modelled.
- External collaborators are opaque parameters: the measurement, display-set, dialog and microscopy services; `createReportAsync`; `getNextSRSeriesNumber`; dcmjs.
