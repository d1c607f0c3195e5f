/**
 The annotation dialogs of the default extension: the free-text input dialog,
 the label autocomplete dialog, the ontology label popup used to rename a
 measurement, and the paginated ontology search bar inside the popup.

 Dialog services, React state and the network are outside the model: a dialog
 is described by what its submit handler does (which callback it calls, and
 whether it dismisses the dialog), and the search bar by a transition function
 over its state, driven by the events React and `fetch` would deliver.
 */
module InputDialogs {
  import opened Common
  import opened Measurements

  // ---------------------------------------------------------------------------
  // callInputDialog
  // ---------------------------------------------------------------------------

  /** The annotation data the dialog is opened on: its `text` and `label`. */
  datatype InputData = InputData(text: Option<string>, labelText: Option<string>)

  /**
   The `validateFunc` of the dialog configuration: absent (the default accepts
   everything), a function, or a value that is not a function (then skipped).
   */
  datatype Validation = DefaultValidation | Validator(accepts: Option<string> -> bool) | NotAFunction

  predicate Passes(validation: Validation, labelValue: Option<string>) {
    match validation
    case Validator(accepts) => accepts(labelValue)
    case _ => true
  }

  /** A call of the dialog's `callback(value, action)`. */
  datatype Callback = Callback(value: Option<string>, action: string)

  /** What a submit does: the callback it calls, if any, and whether the dialog is dismissed. */
  datatype SubmitEffect = SubmitEffect(callback: Option<Callback>, dismissed: bool)

  /**
   The label the input starts with: "" without data, the data's text for an
   arrow annotation (the default) and its label otherwise.
   */
  function InitialLabel(data: Option<InputData>, isArrowAnnotateInputDialog: bool): (initial: Option<string>)
    ensures data.None? ==> initial == Some("")
    ensures data.Some? ==> initial == (if isArrowAnnotateInputDialog then data.value.text else data.value.labelText)
  {
    match data
    case None => Some("")
    case Some(d) => if isArrowAnnotateInputDialog then d.text else d.labelText
  }

  /**
   The submit handler of `callInputDialog`. A save that fails validation does
   nothing at all, so the dialog stays open; a save that passes reports the
   label, a cancel reports "", and every other action only closes the dialog.
   */
  function SubmitInput(actionId: string, labelValue: Option<string>, validation: Validation): (e: SubmitEffect)
    ensures !e.dismissed <==> actionId == "save" && !Passes(validation, labelValue)
    ensures e.callback.Some? <==> e.dismissed && (actionId == "save" || actionId == "cancel")
    ensures e.callback.Some? ==> e.callback.value.action == actionId
    ensures actionId == "save" && e.callback.Some? ==> e.callback.value.value == labelValue
    ensures actionId == "cancel" ==> e.callback == Some(Callback(Some(""), "cancel"))
  {
    if actionId == "save" then
      if !Passes(validation, labelValue) then SubmitEffect(None, false)
      else SubmitEffect(Some(Callback(labelValue, "save")), true)
    else if actionId == "cancel" then SubmitEffect(Some(Callback(Some(""), "cancel")), true)
    else SubmitEffect(None, true)
  }

  /** A key press in the input: Enter submits the current label as a save; other keys do nothing. */
  function KeyPress(key: string, labelValue: Option<string>, validation: Validation): (e: Option<SubmitEffect>)
    ensures key == "Enter" <==> e.Some?
    ensures e.Some? ==> e.value == SubmitInput("save", labelValue, validation)
  {
    if key == "Enter" then Some(SubmitInput("save", labelValue, validation)) else None
  }

  // ---------------------------------------------------------------------------
  // callLabelAutocompleteDialog
  // ---------------------------------------------------------------------------

  /** What the labelling flow hands back: a chosen string, or anything else. */
  datatype LabelPick = Picked(s: string) | NotAString

  /**
   The labelling-done callback: a string is validated and saved, anything else
   cancels; the dialog is dismissed unless validation fails.
   */
  function LabellingDone(pick: LabelPick, validation: Validation): (e: SubmitEffect)
    ensures !e.dismissed <==> pick.Picked? && !Passes(validation, Some(pick.s))
    ensures pick.Picked? && e.dismissed ==> e.callback == Some(Callback(Some(pick.s), "save"))
    ensures pick.NotAString? ==> e.callback == Some(Callback(Some(""), "cancel"))
  {
    match pick
    case Picked(s) =>
      if !Passes(validation, Some(s)) then SubmitEffect(None, false)
      else SubmitEffect(Some(Callback(Some(s), "save")), true)
    case NotAString => SubmitEffect(Some(Callback(Some(""), "cancel")), true)
  }

  /**
   The autocomplete dialog behaves as the input dialog would on the same
   choice: a picked string as a save of that string, anything else as a cancel.
   */
  lemma AutocompleteAgreesWithInputDialog(pick: LabelPick, validation: Validation)
    ensures pick.Picked? ==> LabellingDone(pick, validation) == SubmitInput("save", Some(pick.s), validation)
    ensures pick.NotAString? ==> LabellingDone(pick, validation) == SubmitInput("cancel", None, validation)
  {
  }

  // ---------------------------------------------------------------------------
  // showLabelAnnotationPopup
  // ---------------------------------------------------------------------------

  /**
   The popup's dialog value. It opens as `{label, description}`; picking an
   ontology entry replaces it with `{name}`.
   */
  datatype PopupValue = PopupValue(labelValue: Option<string>, description: Option<string>, name: Option<string>)

  /** How the popup's promise settles, and whether the dialog was dismissed. */
  datatype PopupEffect = PopupEffect(dismissed: bool, settled: Result<Measurement>)

  function PopupInitialValue(m: Measurement): (v: PopupValue)
    ensures v.name.None?
    ensures v.labelValue == v.description == Some(if Truthy(FirstSiteText(m)) then FirstSiteText(m).value else "")
  {
    var first := Some(FirstTruthy([FirstSiteText(m)]).GetOr(""));
    PopupValue(first, first, None)
  }

  /** Picking an ontology entry named `name`. */
  function PopupPick(name: string): (v: PopupValue)
    ensures v.name == Some(name) && v.labelValue.None? && v.description.None?
  {
    PopupValue(None, None, Some(name))
  }

  /**
   The popup's submit handler: it always dismisses; the "Save" button resolves
   with the measurement relabelled to the value's `name`, any other action
   rejects.
   */
  function LabelPopupSubmit(m: Measurement, actionText: string, value: PopupValue): (e: PopupEffect)
    ensures e.dismissed
    ensures e.settled.Success? <==> actionText == "Save"
    ensures e.settled.Success? ==> e.settled.value.labelText == value.name && e.settled.value.(labelText := m.labelText) == m
  {
    if actionText == "Save" then PopupEffect(true, Success(m.(labelText := value.name)))
    else PopupEffect(true, Failure("Action canceled or invalid input"))
  }

  /** Saving the popup without picking an entry clears the measurement's label. */
  lemma SaveWithoutPickClearsLabel(m: Measurement)
    ensures LabelPopupSubmit(m, "Save", PopupInitialValue(m)).settled == Success(m.(labelText := None))
  {
  }

  // ---------------------------------------------------------------------------
  // The ontology search bar
  // ---------------------------------------------------------------------------

  /** An ontology entry returned by the search service. */
  datatype Item = Item(name: string)

  /** The search bar's React state. */
  datatype SearchBar = SearchBar(
    searchTerm: string,
    debouncedTerm: string,
    active: bool,
    loading: bool,
    data: seq<Item>,
    page: nat,
    hasMore: bool)

  const InitialSearchBar := SearchBar("", "", false, false, [], 1, true)

  /**
   What can happen to the search bar: typing; the 500 ms debounce timer firing;
   the fetch effect running for the current term and page; the request
   completing with a page of entries or failing; a scroll of the result list
   (with or without a mounted list) with its scroll metrics; a click on entry
   `index` of the list.
   */
  datatype SearchEvent =
    | Typed(term: string)
    | DebounceElapsed
    | FetchEffect
    | FetchSucceeded(items: seq<Item>)
    | FetchFailed
    | Scrolled(hasContainer: bool, scrollTop: int, clientHeight: int, scrollHeight: int)
    | Clicked(index: nat)

  /** The list is scrolled to within 10 pixels of its bottom. */
  predicate NearBottom(scrollTop: int, clientHeight: int, scrollHeight: int) {
    scrollTop + clientHeight >= scrollHeight - 10
  }

  /** Whether a scroll may load another page. */
  predicate MayLoadMore(s: SearchBar, hasContainer: bool) {
    hasContainer && s.hasMore && !s.loading
  }

  /**
   One event. A new debounced term starts over on the first page with no
   entries; a page of entries is appended and says whether more may come; only
   a scroll near the bottom, while more may come and nothing is loading,
   advances the page; a click on an entry puts its name into the input and
   closes the list.
   */
  function Step(s: SearchBar, e: SearchEvent): (t: SearchBar)
    ensures s.page >= 1 ==> t.page >= 1
    ensures e.DebounceElapsed? ==> t.debouncedTerm == s.searchTerm && t.page == 1 && t.data == [] && t.hasMore
    ensures !e.DebounceElapsed? ==> t.debouncedTerm == s.debouncedTerm
    ensures e.FetchSucceeded? ==> t.data == s.data + e.items && (t.hasMore <==> |e.items| > 0) && !t.loading
    ensures e.Scrolled? ==>
      && (t.page == s.page + 1 <==> MayLoadMore(s, e.hasContainer) && NearBottom(e.scrollTop, e.clientHeight, e.scrollHeight))
      && (t.page != s.page + 1 ==> t == s)
    ensures e.Clicked? && e.index < |s.data| ==> t.searchTerm == s.data[e.index].name && !t.active && t.data == []
    ensures e.Clicked? && e.index >= |s.data| ==> t == s
    ensures t.page != s.page ==> e.DebounceElapsed? || e.Scrolled?
    ensures t.hasMore != s.hasMore ==> e.DebounceElapsed? || e.FetchSucceeded?
  {
    match e
    case Typed(term) => s.(searchTerm := term)
    case DebounceElapsed => s.(debouncedTerm := s.searchTerm, page := 1, data := [], hasMore := true)
    case FetchEffect =>
      if |s.debouncedTerm| > 0 then s.(loading := true)
      else s.(active := false, data := [])
    case FetchSucceeded(items) => s.(data := s.data + items, hasMore := |items| > 0, active := true, loading := false)
    case FetchFailed => s.(loading := false)
    case Scrolled(hasContainer, top, client, height) =>
      if !MayLoadMore(s, hasContainer) then s
      else if NearBottom(top, client, height) then s.(page := s.page + 1)
      else s
    case Clicked(index) =>
      if index < |s.data| then s.(active := false, searchTerm := s.data[index].name, data := [])
      else s
  }

  /** A new debounced term is the only event that sends the list back to its first page. */
  predicate NoNewTerm(es: seq<SearchEvent>) {
    forall i :: 0 <= i < |es| ==> !es[i].DebounceElapsed?
  }

  /** Neither a new debounced term nor a completed request. */
  predicate NoNewTermOrPage(es: seq<SearchEvent>) {
    forall i :: 0 <= i < |es| ==> !es[i].DebounceElapsed? && !es[i].FetchSucceeded?
  }

  /**
   Running a sequence of events from a state. Without a new debounced term the
   page only moves forward, and the debounced term stays. Once a page has come
   back empty, scrolling is over: until a new term is debounced or another
   page arrives, no event advances the page or re-enables loading.
   */
  function Run(s: SearchBar, es: seq<SearchEvent>): (t: SearchBar)
    ensures s.page >= 1 ==> t.page >= 1
    ensures NoNewTerm(es) ==> t.page >= s.page && t.debouncedTerm == s.debouncedTerm
    ensures !s.hasMore && NoNewTermOrPage(es) ==> !t.hasMore && t.page == s.page
    decreases |es|
  {
    if |es| == 0 then s
    else
      assert NoNewTerm(es) ==> NoNewTerm(es[1..]);
      assert NoNewTermOrPage(es) ==> NoNewTermOrPage(es[1..]);
      Run(Step(s, es[0]), es[1..])
  }

  /** The concatenation of a sequence of pages. */
  function Concat(pages: seq<seq<Item>>): seq<Item> {
    if |pages| == 0 then [] else pages[0] + Concat(pages[1..])
  }

  function PageEvents(pages: seq<seq<Item>>): (es: seq<SearchEvent>)
    ensures |es| == |pages|
    ensures forall i :: 0 <= i < |pages| ==> es[i] == FetchSucceeded(pages[i])
  {
    if |pages| == 0 then [] else [FetchSucceeded(pages[0])] + PageEvents(pages[1..])
  }

  /**
   Pages that arrive one after another are appended in arrival order, and more
   is expected exactly when the last page was not empty.
   */
  lemma {:induction false} PagesAccumulate(s: SearchBar, pages: seq<seq<Item>>)
    requires |pages| > 0
    ensures var t := Run(s, PageEvents(pages));
      t.data == s.data + Concat(pages) && (t.hasMore <==> |pages[|pages| - 1]| > 0)
    decreases |pages|
  {
    var es := PageEvents(pages);
    var s1 := Step(s, FetchSucceeded(pages[0]));
    assert s1.data == s.data + pages[0] && (s1.hasMore <==> |pages[0]| > 0);
    assert es[1..] == PageEvents(pages[1..]);
    assert Run(s, es) == Run(s1, PageEvents(pages[1..]));
    if |pages| == 1 {
      assert Concat(pages) == pages[0];
    } else {
      PagesAccumulate(s1, pages[1..]);
      assert Concat(pages) == pages[0] + Concat(pages[1..]);
      assert pages[1..][|pages[1..]| - 1] == pages[|pages| - 1];
    }
  }
}
