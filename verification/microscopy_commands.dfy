/**
 Commands of the microscopy extension: the interaction bindings `setToolActive`
 hands to the microscopy service, the decoration of a structured-report
 dataset before it is stored, and the delete and relabel commands on ROI
 annotations.
 */
module MicroscopyCommands {
  import opened Common
  import MicroscopyDialog
  import InputDialogs

  // ---------------------------------------------------------------------------
  // setToolActive
  // ---------------------------------------------------------------------------

  /**
   The options of one interaction. `styleOptions` stands for the default style
   object, which is either present or deleted.
   */
  datatype InteractionOptions = InteractionOptions(
    geometryType: Option<string>,
    vertexEnabled: Option<bool>,
    styleOptions: bool,
    mouseButtons: seq<string>,
    minPoints: Option<nat>,
    maxPoints: Option<nat>)

  /** `[name, options]`. */
  datatype Interaction = Interaction(name: string, options: InteractionOptions)

  const DrawTools: seq<string> := ["line", "box", "circle", "point", "polygon", "freehandpolygon", "freehandline"]

  function Bound(buttons: seq<string>): InteractionOptions {
    InteractionOptions(None, None, false, buttons, None, None)
  }

  const DragPanOnMiddle := Interaction("dragPan", Bound(["middle"]))
  const DragZoomOnRight := Interaction("dragZoom", Bound(["right"]))

  /** The drawing options for a draw tool: a left-button binding, with per-geometry adjustments. */
  function DrawOptions(toolName: string): (o: InteractionOptions)
    ensures o.geometryType == Some(toolName) && o.mouseButtons == ["left"]
    ensures toolName == "line" ==> o.minPoints == Some(2) && o.maxPoints == Some(2)
    ensures toolName != "line" ==> o.minPoints.None? && o.maxPoints.None?
    ensures toolName == "point" <==> o.vertexEnabled.None? && !o.styleOptions
    ensures toolName != "point" ==> o.vertexEnabled == Some(true) && o.styleOptions
  {
    var base := InteractionOptions(Some(toolName), Some(true), true, ["left"], None, None);
    if toolName == "line" then base.(minPoints := Some(2), maxPoints := Some(2))
    else if toolName == "point" then base.(styleOptions := false, vertexEnabled := None)
    else base
  }

  /**
   The interactions activated for a tool: drawing for a draw tool, panning on
   the left and middle buttons for "dragPan", the tool itself on the left
   button otherwise. Every list ends with zoom on the right button.
   */
  function SetToolActive(toolName: string): (r: seq<Interaction>)
    ensures |r| >= 2 && r[|r| - 1] == DragZoomOnRight
    ensures toolName in DrawTools ==> r == [Interaction("draw", DrawOptions(toolName)), DragPanOnMiddle, DragZoomOnRight]
    ensures toolName !in DrawTools && toolName == "dragPan" ==>
      r == [Interaction("dragPan", Bound(["left", "middle"])), DragZoomOnRight]
    ensures toolName !in DrawTools && toolName != "dragPan" ==>
      r == [Interaction(toolName, Bound(["left"])), DragPanOnMiddle, DragZoomOnRight]
  {
    if toolName in DrawTools then [Interaction("draw", DrawOptions(toolName)), DragPanOnMiddle, DragZoomOnRight]
    else if toolName == "dragPan" then [Interaction("dragPan", Bound(["left", "middle"])), DragZoomOnRight]
    else [Interaction(toolName, Bound(["left"])), DragPanOnMiddle, DragZoomOnRight]
  }

  /** The tool an interaction list makes active: the drawn geometry, or the first interaction's name. */
  function ActiveTool(r: seq<Interaction>): string
    requires |r| > 0
  {
    match r[0].options.geometryType
    case Some(g) => g
    case None => r[0].name
  }

  /** The active tool can be read back from the interactions: `setToolActive` loses no information about the tool. */
  lemma ActiveToolRoundTrip(toolName: string)
    ensures ActiveTool(SetToolActive(toolName)) == toolName
  {
  }

  /** The left button is bound to exactly one interaction, the first, for every tool. */
  lemma LeftButtonBoundOnce(toolName: string)
    ensures var r := SetToolActive(toolName);
      && "left" in r[0].options.mouseButtons
      && forall i :: 1 <= i < |r| ==> "left" !in r[i].options.mouseButtons
  {
    var r := SetToolActive(toolName);
    forall i | 1 <= i < |r|
      ensures "left" !in r[i].options.mouseButtons
    {
      assert r[i] == DragPanOnMiddle || r[i] == DragZoomOnRight;
    }
  }

  // ---------------------------------------------------------------------------
  // storeMeasurements: dataset decoration
  // ---------------------------------------------------------------------------

  /** A code `{CodeValue, CodingSchemeDesignator, CodeMeaning}`. */
  datatype Code = Code(codeValue: Option<string>, codingSchemeDesignator: string, codeMeaning: Option<string>)

  /** An entry of the author observer sequence. */
  datatype Author = Author(personName: Option<string>, personIdentification: seq<Code>, authorObserverType: seq<Code>)

  /** The user recorded as author: its `name` and `id`. */
  datatype ReportUser = ReportUser(name: Option<string>, id: Option<string>)

  /** The report dataset: the two attributes decoration touches, and the rest unchanged. */
  datatype Dataset = Dataset(
    SpecificCharacterSet: Option<string>,
    AuthorObserverSequence: Option<seq<Author>>,
    StudyInstanceUID: Option<string>)

  const Utf8CharacterSet := "ISO_IR 192"

  function AuthorOf(user: ReportUser): Author {
    Author(user.name, [Code(user.id, "99LOCAL", None)], [Code(Some("AUT"), "DCM", Some("Author"))])
  }

  /**
   The decoration before storing: UTF-8 as character set unless one is set
   already, and when a user is known, that user as the single author.
   */
  function Decorate(d: Dataset, user: Option<ReportUser>): (r: Dataset)
    ensures r.SpecificCharacterSet == if d.SpecificCharacterSet.None? then Some(Utf8CharacterSet) else d.SpecificCharacterSet
    ensures user.Some? ==> r.AuthorObserverSequence == Some([AuthorOf(user.value)])
    ensures user.None? ==> r.AuthorObserverSequence == d.AuthorObserverSequence
    ensures r.StudyInstanceUID == d.StudyInstanceUID
  {
    var withCharset := if d.SpecificCharacterSet.None? then d.(SpecificCharacterSet := Some(Utf8CharacterSet)) else d;
    if user.Some? then withCharset.(AuthorObserverSequence := Some([AuthorOf(user.value)])) else withCharset
  }

  /** Decorating twice is decorating once. */
  lemma DecorateIdempotent(d: Dataset, user: Option<ReportUser>)
    ensures Decorate(Decorate(d, user), user) == Decorate(d, user)
  {
  }

  /** The author entry carries the user's name and id, the local coding scheme and the "AUT" author type. */
  lemma AuthorCarriesUser(user: ReportUser)
    ensures var a := AuthorOf(user);
      && a.personName == user.name
      && |a.personIdentification| == 1 && a.personIdentification[0].codeValue == user.id
      && a.personIdentification[0].codingSchemeDesignator == "99LOCAL"
      && a.authorObserverType == [Code(Some("AUT"), "DCM", Some("Author"))]
  {
  }

  // ---------------------------------------------------------------------------
  // deleteMeasurement and setLabel
  // ---------------------------------------------------------------------------

  /** An ROI annotation of the microscopy service: its label. */
  datatype Annotation = Annotation(labelValue: Option<string>)

  /** `deleteMeasurement`: remove the annotation of a given uid; nothing happens without a uid or an annotation. */
  function DeleteMeasurement(annotations: map<string, Annotation>, uid: Option<string>): (r: map<string, Annotation>)
    ensures Truthy(uid) && uid.value in annotations ==> r.Keys == annotations.Keys - {uid.value}
    ensures !(Truthy(uid) && uid.value in annotations) ==> r == annotations
    ensures forall k :: k in r ==> k in annotations && r[k] == annotations[k]
  {
    if Truthy(uid) && uid.value in annotations then annotations - {uid.value} else annotations
  }

  /** Deleting the same uid twice is deleting it once. */
  lemma DeleteIdempotent(annotations: map<string, Annotation>, uid: Option<string>)
    ensures DeleteMeasurement(DeleteMeasurement(annotations, uid), uid) == DeleteMeasurement(annotations, uid)
  {
  }

  /** What the relabel callback does: the new annotations, and whether a relabel was announced. */
  datatype Relabel = Relabel(annotations: map<string, Annotation>, announced: bool)

  /**
   The callback `setLabel` gives the label dialog: only "save" relabels the
   annotation and announces it; relabelling an annotation that does not exist
   throws.
   */
  function SetLabelCallback(annotations: map<string, Annotation>, uid: string, cb: InputDialogs.Callback): (r: Result<Relabel>)
    ensures cb.action != "save" ==> r == Success(Relabel(annotations, false))
    ensures cb.action == "save" ==> (r.Failure? <==> uid !in annotations)
    ensures cb.action == "save" && r.Success? ==>
      r.value.announced && r.value.annotations == annotations[uid := Annotation(cb.value)]
  {
    if cb.action != "save" then Success(Relabel(annotations, false))
    else if uid !in annotations then Failure("TypeError: Cannot read properties of undefined (reading 'setLabel')")
    else Success(Relabel(annotations[uid := Annotation(cb.value)], true))
  }

  /**
   `setLabel` end to end: picking a result in the dialog and saving labels the
   annotation with the result's text; saving without a pick leaves it with an
   undefined label.
   */
  lemma SetLabelThroughDialog(annotations: map<string, Annotation>, uid: string, c: MicroscopyDialog.Concept)
    requires uid in annotations
    ensures var r := SetLabelCallback(annotations, uid, MicroscopyDialog.Submit("save", MicroscopyDialog.Pick(c)).callback.value);
      r.Success? && r.value.annotations[uid].labelValue == Some(c.display)
    ensures var r := SetLabelCallback(annotations, uid, MicroscopyDialog.Submit("save", MicroscopyDialog.InitialValue("")).callback.value);
      r.Success? && r.value.annotations[uid].labelValue.None?
  {
  }
}
