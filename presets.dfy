/**
 * The built-in collaboration-mode presets: one mask per mode offered in the terminal UI.  The
 * Default and Heavy presets carry their rendered instruction template; Plan and Heavy Plan carry
 * their template verbatim and ask for medium reasoning effort.
 */
module CollaborationModePresets {
  import opened Wrappers
  import opened Text
  import opened CollaborationModes

  /**
   * A partial collaboration mode.  `None` leaves a setting as it is; in the doubly optional
   * fields `Some(None)` clears it.
   */
  datatype CollaborationModeMask = CollaborationModeMask(
    name: string,
    mode: Option<ModeKind>,
    model: Option<string>,
    reasoningEffort: Option<Option<ReasoningEffort>>,
    developerInstructions: Option<Option<string>>)

  /** The four instruction templates shipped with the program, one per mode. */
  datatype Templates = Templates(default: string, plan: string, heavy: string, heavyPlan: string)

  function PlanPreset(t: Templates): CollaborationModeMask {
    CollaborationModeMask(DisplayName(Plan), Some(Plan), None, Some(Some(Medium)), Some(Some(t.plan)))
  }

  /** The Default preset, given its rendered instructions. */
  function DefaultPreset(instructions: string): CollaborationModeMask {
    CollaborationModeMask(DisplayName(Default), Some(Default), None, None, Some(Some(instructions)))
  }

  /** The Heavy preset, given its rendered instructions. */
  function HeavyPreset(instructions: string): CollaborationModeMask {
    CollaborationModeMask(DisplayName(Heavy), Some(Heavy), None, None, Some(Some(instructions)))
  }

  /** The presets in order, given the rendered Default and Heavy instructions. */
  function PresetList(t: Templates, default: string, heavy: string): (r: seq<CollaborationModeMask>)
    ensures |r| == |VisibleModes|
    ensures forall k :: 0 <= k < |r| ==>
      r[k].mode == Some(VisibleModes[k]) && r[k].name == DisplayName(VisibleModes[k])
      && r[k].model == None && r[k].developerInstructions.Some? && r[k].developerInstructions.value.Some?
  {
    [DefaultPreset(default), PlanPreset(t), HeavyPreset(heavy), HeavyPlanPreset(t)]
  }

  function HeavyPlanPreset(t: Templates): CollaborationModeMask {
    CollaborationModeMask(DisplayName(HeavyPlan), Some(HeavyPlan), None, Some(Some(Medium)), Some(Some(t.heavyPlan)))
  }

  /**
   * `builtin_collaboration_mode_presets`: one preset per visible mode, in the order the UI lists
   * them, each named after its mode, none of them choosing a model, all of them setting instructions.
   */
  function BuiltinPresets(t: Templates, allows: ModeKind -> bool): (r: seq<CollaborationModeMask>)
    ensures |r| == |VisibleModes|
    ensures forall k :: 0 <= k < |r| ==>
      r[k].mode == Some(VisibleModes[k]) && r[k].name == DisplayName(VisibleModes[k])
      && r[k].model == None && r[k].developerInstructions.Some? && r[k].developerInstructions.value.Some?
    ensures r[0].developerInstructions.value.value == Render(t.default, Default, allows)
    ensures r[2].developerInstructions.value.value == Render(t.heavy, Heavy, allows)
  {
    PresetList(t, Render(t.default, Default, allows), Render(t.heavy, Heavy, allows))
  }

  /** The presets' modes are exactly the visible modes, each once. */
  lemma PresetsCoverVisibleModes(t: Templates, default: string, heavy: string, mode: ModeKind)
    ensures exists k :: 0 <= k < |PresetList(t, default, heavy)| && PresetList(t, default, heavy)[k].mode == Some(mode)
    ensures forall i, j :: 0 <= i < j < |PresetList(t, default, heavy)| ==>
      PresetList(t, default, heavy)[i].mode != PresetList(t, default, heavy)[j].mode
  {
    var r := PresetList(t, default, heavy);
    var k := match mode case Default => 0 case Plan => 1 case Heavy => 2 case HeavyPlan => 3;
    assert r[k].mode == Some(VisibleModes[k]);
  }

  /**
   * The planning modes ask for medium effort and use their template as it is; the others leave
   * the effort alone and carry the instructions rendered for them.
   */
  lemma PresetEffortAndInstructions(t: Templates, default: string, heavy: string, k: nat)
    requires k < |PresetList(t, default, heavy)|
    ensures var p := PresetList(t, default, heavy)[k];
      var mode := VisibleModes[k];
      (p.reasoningEffort == Some(Some(Medium)) <==> mode == Plan || mode == HeavyPlan)
      && (p.reasoningEffort.Some? <==> mode == Plan || mode == HeavyPlan)
      && (mode == Plan ==> p.developerInstructions == Some(Some(t.plan)))
      && (mode == HeavyPlan ==> p.developerInstructions == Some(Some(t.heavyPlan)))
      && (mode == Default ==> p.developerInstructions == Some(Some(default)))
      && (mode == Heavy ==> p.developerInstructions == Some(Some(heavy)))
  {
  }

  /**
   * When the Default template asks for the mode names and the availability sentence, the
   * Default instructions have both filled in and no placeholder left; likewise the Heavy
   * instructions carry the Heavy availability sentence.
   */
  lemma RenderedPresetInstructions(t: Templates, allows: ModeKind -> bool)
    requires Contains(t.default, KnownNamesLead + KnownModeNamesPlaceholder + ".")
    requires Contains(t.default, AvailabilityPlaceholder)
    requires Contains(t.heavy, KnownNamesLead + KnownModeNamesPlaceholder + ".")
    requires Contains(t.heavy, AvailabilityPlaceholder)
    ensures var d := BuiltinPresets(t, allows)[0].developerInstructions.value.value;
      !Contains(d, KnownModeNamesPlaceholder) && !Contains(d, AvailabilityPlaceholder)
      && Contains(d, KnownNamesLead + FormatModeNames(VisibleModes) + ".")
      && Contains(d, AvailabilityMessage(Default, allows))
    ensures Contains(BuiltinPresets(t, allows)[2].developerInstructions.value.value, AvailabilityMessage(Heavy, allows))
  {
    RenderFillsPlaceholders(t.default, Default, allows);
    RenderFillsPlaceholders(t.heavy, Heavy, allows);
    FormatVisibleModes();
  }
}
