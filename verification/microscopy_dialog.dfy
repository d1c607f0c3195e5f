/**
 The label dialog of the microscopy extension: its submit handler, the value
 it starts from, and the SNOMED search bar inside it.
 */
module MicroscopyDialog {
  import opened Common
  import InputDialogs

  /**
   The dialog value. It opens as `{value: defaultValue}`; picking a search
   result replaces it with `{label, description}`.
   */
  datatype DialogValue = DialogValue(value: Option<string>, labelValue: Option<string>, description: Option<string>)

  function InitialValue(defaultValue: string): (v: DialogValue)
    ensures v.value == Some(defaultValue) && v.labelValue.None? && v.description.None?
  {
    DialogValue(Some(defaultValue), None, None)
  }

  /** A search result: its `display` text. */
  datatype Concept = Concept(display: string)

  /** The dialog value after picking a search result. */
  function Pick(c: Concept): (v: DialogValue)
    ensures v.labelValue == Some(c.display) && v.description == Some(c.display) && v.value.None?
  {
    DialogValue(None, Some(c.display), Some(c.display))
  }

  /**
   The submit handler: "save" reports the value's label without validation,
   "cancel" reports "", and every action, unknown ones included, dismisses.
   */
  function Submit(actionId: string, v: DialogValue): (e: InputDialogs.SubmitEffect)
    ensures e.dismissed
    ensures e.callback.Some? <==> actionId == "save" || actionId == "cancel"
    ensures actionId == "save" ==> e.callback == Some(InputDialogs.Callback(v.labelValue, "save"))
    ensures actionId == "cancel" ==> e.callback == Some(InputDialogs.Callback(Some(""), "cancel"))
  {
    if actionId == "save" then InputDialogs.SubmitEffect(Some(InputDialogs.Callback(v.labelValue, "save")), true)
    else if actionId == "cancel" then InputDialogs.SubmitEffect(Some(InputDialogs.Callback(Some(""), "cancel")), true)
    else InputDialogs.SubmitEffect(None, true)
  }

  /**
   Without validation the microscopy dialog agrees with the default input
   dialog on every action, given the same label.
   */
  lemma SubmitAgreesWithInputDialog(actionId: string, v: DialogValue)
    ensures Submit(actionId, v) == InputDialogs.SubmitInput(actionId, v.labelValue, InputDialogs.DefaultValidation)
  {
  }

  /** Saving before anything was picked reports an undefined label: the initial value has no label key. */
  lemma SaveWithoutPickReportsUndefined(defaultValue: string)
    ensures Submit("save", InitialValue(defaultValue)).callback == Some(InputDialogs.Callback(None, "save"))
  {
  }

  // ---------------------------------------------------------------------------
  // The SNOMED search bar
  // ---------------------------------------------------------------------------

  /** The search bar's React state. */
  datatype SearchBar = SearchBar(searchTerm: string, debouncedTerm: string, active: bool, data: seq<Concept>)

  const InitialSearchBar := SearchBar("", "", false, [])

  /**
   What can happen: typing; the debounce timer firing; the fetch effect
   running; the request completing with results (for the term it was sent
   with) or failing; a click on result `index`.
   */
  datatype SearchEvent =
    | Typed(term: string)
    | DebounceElapsed
    | FetchEffect
    | FetchSucceeded(results: seq<Concept>)
    | FetchFailed
    | Clicked(index: nat)

  /**
   The term a fetch effect queries for, if it queries at all. The request is
   built from the input's current text, not from the debounced term that
   triggered it.
   */
  function QueryTerm(s: SearchBar): (q: Option<string>)
    ensures q.Some? <==> |s.debouncedTerm| > 0
    ensures q.Some? ==> q.value == s.searchTerm
  {
    if |s.debouncedTerm| > 0 then Some(s.searchTerm) else None
  }

  /**
   One event. Typing changes only the input; the debounce copies the input
   into the debounced term; the fetch effect closes and clears the list
   exactly when there is no debounced term, and otherwise leaves the state to
   the request; results replace the list and open it; a failed request changes
   nothing; a click on a listed result puts its text in the input and closes
   and clears the list.
   */
  function Step(s: SearchBar, e: SearchEvent): (t: SearchBar)
    ensures e.Typed? ==> t == s.(searchTerm := e.term)
    ensures e.DebounceElapsed? ==> t == s.(debouncedTerm := s.searchTerm)
    ensures e.FetchEffect? ==> (t != s <==> s.debouncedTerm == "" && (s.active || s.data != []))
    ensures e.FetchEffect? && s.debouncedTerm == "" ==> t == s.(active := false, data := [])
    ensures e.FetchEffect? && s.debouncedTerm != "" ==> t == s
    ensures e.FetchSucceeded? ==> t == s.(data := e.results, active := true)
    ensures e.FetchFailed? ==> t == s
    ensures e.Clicked? && e.index < |s.data| ==>
      t == s.(active := false, searchTerm := s.data[e.index].display, data := [])
    ensures e.Clicked? && e.index >= |s.data| ==> t == s
    ensures t.debouncedTerm != s.debouncedTerm ==> e.DebounceElapsed?
  {
    match e
    case Typed(term) => s.(searchTerm := term)
    case DebounceElapsed => s.(debouncedTerm := s.searchTerm)
    case FetchEffect => if QueryTerm(s).Some? then s else s.(active := false, data := [])
    case FetchSucceeded(results) => s.(data := results, active := true)
    case FetchFailed => s
    case Clicked(index) =>
      if index < |s.data| then s.(active := false, searchTerm := s.data[index].display, data := [])
      else s
  }

  /** An empty debounced term closes the list and clears it without querying. */
  lemma EmptyTermClearsList(s: SearchBar)
    requires s.debouncedTerm == ""
    ensures QueryTerm(s).None?
    ensures var t := Step(s, FetchEffect); !t.active && t.data == []
  {
  }

  /**
   Results replace the previous ones (there is no pagination), and clicking a
   result puts its text in the input, closes the list and sets the dialog
   value to that result.
   */
  lemma ClickPicksResult(s: SearchBar, results: seq<Concept>, index: nat)
    requires index < |results|
    ensures var t := Step(Step(s, FetchSucceeded(results)), Clicked(index));
      && t.searchTerm == results[index].display
      && !t.active
      && t.data == []
      && Submit("save", Pick(results[index])).callback == Some(InputDialogs.Callback(Some(t.searchTerm), "save"))
  {
  }

  /** The query follows the input, so text typed after the debounce fired is what gets searched. */
  lemma QueryUsesCurrentInput(s: SearchBar, typed: string)
    requires s.debouncedTerm != ""
    ensures QueryTerm(Step(s, Typed(typed))) == Some(typed)
  {
  }
}
