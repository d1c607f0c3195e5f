/**
 The toolbar of the longitudinal mode: the command lists its buttons run. The
 button factory itself belongs to the toolbar service and is not modelled;
 a button here is its id and its commands.
 */
module ToolbarButtons {
  import opened Common

  /** The options of a command: a tool activation, a window-level preset, or none. */
  datatype CommandOptions =
    | ToolOptions(toolGroupId: Option<string>, toolName: string)
    | PresetOptions(windowLevel: map<string, int>)
    | NoOptions

  datatype Command = Command(commandName: string, commandOptions: CommandOptions, context: string)

  /** A toolbar button or menu item: its id and the commands it runs. */
  datatype Button = Button(id: string, buttonType: string, commands: seq<Command>)

  /** Activating a tool in a tool group, or in the active viewport's group when none is named. */
  function Activate(toolGroupId: Option<string>, toolName: string): Command {
    Command("setToolActive", ToolOptions(toolGroupId, toolName), "CORNERSTONE")
  }

  // ---------------------------------------------------------------------------
  // Commands for every tool group
  // ---------------------------------------------------------------------------

  const ToolGroupIds: seq<string> := ["default", "mpr", "SRToolGroup"]

  /** `_createSetToolActiveCommands`: one activation of the tool per tool group, in group order. */
  function SetToolActiveCommands(toolName: string): (cs: seq<Command>)
    ensures |cs| == |ToolGroupIds|
    ensures forall i :: 0 <= i < |cs| ==> cs[i] == Activate(Some(ToolGroupIds[i]), toolName)
  {
    seq(|ToolGroupIds|, i requires 0 <= i < |ToolGroupIds| => Activate(Some(ToolGroupIds[i]), toolName))
  }

  /**
   The commands activate the tool in each of the three groups exactly once and
   in no other group.
   */
  lemma EachGroupOnce(toolName: string, g: string)
    ensures var cs := SetToolActiveCommands(toolName);
      (g in ToolGroupIds <==> exists i :: 0 <= i < |cs| && cs[i] == Activate(Some(g), toolName))
    ensures var cs := SetToolActiveCommands(toolName);
      forall i, j :: 0 <= i < j < |cs| ==> cs[i].commandOptions.toolGroupId != cs[j].commandOptions.toolGroupId
  {
    var cs := SetToolActiveCommands(toolName);
    if g in ToolGroupIds {
      var i :| 0 <= i < |ToolGroupIds| && ToolGroupIds[i] == g;
      assert cs[i] == Activate(Some(g), toolName);
    }
  }

  /** Zoom and Pan take their commands from the three-group helper. */
  const Zoom := Button("Zoom", "tool", SetToolActiveCommands("Zoom"))
  const Pan := Button("Pan", "tool", SetToolActiveCommands("Pan"))

  lemma ZoomAndPanInEveryGroup()
    ensures forall g :: g in ToolGroupIds ==> Activate(Some(g), "Zoom") in Zoom.commands && Activate(Some(g), "Pan") in Pan.commands
  {
    forall g | g in ToolGroupIds
      ensures Activate(Some(g), "Zoom") in Zoom.commands && Activate(Some(g), "Pan") in Pan.commands
    {
      var i :| 0 <= i < |ToolGroupIds| && ToolGroupIds[i] == g;
      assert Zoom.commands[i] == Activate(Some(g), "Zoom");
      assert Pan.commands[i] == Activate(Some(g), "Pan");
    }
  }

  // ---------------------------------------------------------------------------
  // Window-level presets
  // ---------------------------------------------------------------------------

  /**
   `_createWwwcPreset`: an action whose id is the preset number in decimal and
   whose single command sets the window level to a copy of the preset's
   entry (empty when the table has none). `presets` is the default
   window-level table.
   */
  function WwwcPreset(preset: nat, presets: map<nat, map<string, int>>): (b: Button)
    ensures b.buttonType == "action" && |b.commands| == 1
    ensures b.commands[0].commandName == "setWindowLevel" && b.commands[0].context == "CORNERSTONE"
    ensures b.commands[0].commandOptions.PresetOptions?
    ensures preset in presets ==> b.commands[0].commandOptions.windowLevel == presets[preset]
    ensures preset !in presets ==> b.commands[0].commandOptions.windowLevel == map[]
    ensures forall i :: 0 <= i < |b.id| ==> '0' <= b.id[i] <= '9'
    ensures DecimalValue(b.id) == preset
  {
    DecimalRoundTrip(preset);
    var options := if preset in presets then presets[preset] else map[];
    Button(NatToString(preset), "action", [Command("setWindowLevel", PresetOptions(options), "CORNERSTONE")])
  }

  /** The window-level menu: presets one to five, in order. */
  function WindowLevelItems(presets: map<nat, map<string, int>>): seq<Button> {
    [WwwcPreset(1, presets), WwwcPreset(2, presets), WwwcPreset(3, presets), WwwcPreset(4, presets), WwwcPreset(5, presets)]
  }

  /** The menu items read back as the numbers one to five, so their ids are distinct. */
  lemma WindowLevelIdsDistinct(presets: map<nat, map<string, int>>)
    ensures var items := WindowLevelItems(presets);
      && |items| == 5
      && (forall i :: 0 <= i < 5 ==> DecimalValue(items[i].id) == i + 1)
      && (forall i, j :: 0 <= i < j < 5 ==> items[i].id != items[j].id)
  {
  }

  // ---------------------------------------------------------------------------
  // Measurement tools
  // ---------------------------------------------------------------------------

  const SrToolGroup := "SRToolGroup"

  /** A measurement tool and its structured-report twin, activated together. */
  function Paired(toolName: string): seq<Command> {
    [Activate(None, toolName), Activate(Some(SrToolGroup), "SR" + toolName)]
  }

  /** The tool a button activates in the active viewport's group. */
  function ActivatedTool(b: Button): Option<string> {
    if |b.commands| > 0 && b.commands[0].commandOptions.ToolOptions? then Some(b.commands[0].commandOptions.toolName) else None
  }

  /** The items of the measurement-tools menu, in menu order, with their commands as written out. */
  const MeasurementItems: seq<Button> := [
    Button("Length", "tool", [Activate(None, "Length"), Activate(Some("SRToolGroup"), "SRLength")]),
    Button("Bidirectional", "tool", [Activate(None, "Bidirectional"), Activate(Some("SRToolGroup"), "SRBidirectional")]),
    Button("ArrowAnnotate", "tool", [Activate(None, "ArrowAnnotate"), Activate(Some("SRToolGroup"), "SRArrowAnnotate")]),
    Button("EllipticalROI", "tool", [Activate(None, "EllipticalROI"), Activate(Some("SRToolGroup"), "SREllipticalROI")]),
    Button("CircleROI", "tool", [Activate(None, "CircleROI"), Activate(Some("SRToolGroup"), "SRCircleROI")]),
    Button("PlanarFreehandROI", "tool", [Activate(None, "PlanarFreehandROI")])
  ]

  /** The stand-alone measurement buttons of the toolbar, with their commands as written out. */
  const MeasurementRadioButtons: seq<Button> := [
    Button("LengthTool", "tool", [Activate(None, "Length"), Activate(Some("SRToolGroup"), "SRLength")]),
    Button("FreehandTool", "tool", [Activate(None, "PlanarFreehandROI")]),
    Button("bidirectionalTool", "tool", [Activate(None, "Bidirectional"), Activate(Some("SRToolGroup"), "SRBidirectional")]),
    Button("ArrowAnnotationTool", "tool", [Activate(None, "ArrowAnnotate"), Activate(Some("SRToolGroup"), "SRArrowAnnotate")]),
    Button("ellipseTool", "tool", [Activate(None, "EllipticalROI"), Activate(Some("SRToolGroup"), "SREllipticalROI")]),
    Button("circleTool", "tool", [Activate(None, "CircleROI"), Activate(Some("SRToolGroup"), "SRCircleROI")])
  ]

  /**
   A measurement button activates its tool together with the tool's
   structured-report twin in the report tool group, except the freehand ROI,
   which has no twin and activates only itself.
   */
  predicate PairedWithTwin(b: Button) {
    && ActivatedTool(b).Some?
    && (ActivatedTool(b) == Some("PlanarFreehandROI") <==> b.commands == [Activate(None, "PlanarFreehandROI")])
    && (ActivatedTool(b) != Some("PlanarFreehandROI") ==> b.commands == Paired(ActivatedTool(b).value))
  }

  lemma MenuToolsArePaired()
    ensures forall i :: 0 <= i < |MeasurementItems| ==> PairedWithTwin(MeasurementItems[i])
  {
    assert "SR" + "Length" == "SRLength";
    assert "SR" + "Bidirectional" == "SRBidirectional";
    assert "SR" + "ArrowAnnotate" == "SRArrowAnnotate";
    assert "SR" + "EllipticalROI" == "SREllipticalROI";
    assert "SR" + "CircleROI" == "SRCircleROI";
  }

  lemma ToolbarToolsArePaired()
    ensures forall i :: 0 <= i < |MeasurementRadioButtons| ==> PairedWithTwin(MeasurementRadioButtons[i])
  {
    assert "SR" + "Length" == "SRLength";
    assert "SR" + "Bidirectional" == "SRBidirectional";
    assert "SR" + "ArrowAnnotate" == "SRArrowAnnotate";
    assert "SR" + "EllipticalROI" == "SREllipticalROI";
    assert "SR" + "CircleROI" == "SRCircleROI";
  }

  /** The menu lists each measurement tool once. */
  lemma MeasurementItemsDistinct()
    ensures forall i, j :: 0 <= i < j < |MeasurementItems| ==> ActivatedTool(MeasurementItems[i]) != ActivatedTool(MeasurementItems[j])
  {
  }
}
