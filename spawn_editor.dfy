/**
 * The spawn-permission editor as a value: its state, what each user action does to it, and
 * what it emits on save.  The editor class in `SpawnConfigView` is proved to follow these
 * definitions; the lemmas here state what the editor promises.
 */
module SpawnEditor {
  import opened Wrappers
  import opened RoleIds
  import opened Plugins
  import opened SpawnPermissions

  /** `FocusPanel`: which of the two lists keys act on. */
  datatype FocusPanel = Callers | Targets

  /**
   * The actions the editor's keys stand for: Tab/Left/Right, Enter/Space, `a`, `d`, `s`, `q`,
   * and any other key. The scrolling keys (Up, Down, `k`, `j`, Ctrl-P, Ctrl-N) are read as
   * `OtherKey`: the model does not move the selection, where `move_up`/`move_down` would.
   */
  datatype Action = FocusKey | ActivateKey | AllowAllKey | DefaultKey | SaveKey | QuitKey | OtherKey

  /** The fields of `AgentSpawnConfigView` that the model keeps; the two selections are the scroll states' selected indices. */
  datatype Editor = Editor(
    focus: FocusPanel,
    complete: bool,
    callers: seq<RoleSpec>,
    targets: seq<RoleSpec>,
    allTargetsSet: set<string>,
    defaultPermissions: map<string, EffectivePermission>,
    callerSelected: Option<nat>,
    targetSelected: Option<nat>,
    overrides: map<string, OverridePermission>,
    initialOverrides: map<string, OverridePermission>,
    warnings: seq<string>)

  /** `initialize_selection`: the first caller and the first target, or nothing when there is no caller. */
  function InitializeSelection(e: Editor): Editor {
    if |e.callers| == 0 then e.(callerSelected := None, targetSelected := None)
    else e.(callerSelected := Some(0), targetSelected := if |e.targets| == 0 then None else Some(0))
  }

  /** `AgentSpawnConfigView::new`: role lists from the registry's UI lists, defaults, and the persisted overrides read in. */
  function Initial(allowOverrides: seq<(string, seq<string>)>, plugins: Registry): Editor {
    var callers := RoleSpecs(plugins.ui.agentConfigCallers, plugins);
    var targets := RoleSpecs(plugins.ui.agentConfigTargets, plugins);
    var callerIds := SpecIds(callers);
    var allTargets := SpecIds(targets);
    var parsed := ParseOverrides(allowOverrides, callerIds, allTargets);
    InitializeSelection(Editor(Callers, false, callers, targets, allTargets,
                               DefaultsFor(plugins.spawnDefaultsAllow, callerIds, allTargets),
                               None, None, parsed.overrides, parsed.overrides, parsed.warnings))
  }

  /** `selected_caller_id`: the selected caller, if the selection is on a listed caller. */
  function SelectedCaller(e: Editor): Option<string> {
    if e.callerSelected.Some? && e.callerSelected.value < |e.callers| then Some(e.callers[e.callerSelected.value].id)
    else None
  }

  /** The selected target, if the selection is on a listed target. */
  function SelectedTarget(e: Editor): Option<string> {
    if e.targetSelected.Some? && e.targetSelected.value < |e.targets| then Some(e.targets[e.targetSelected.value].id)
    else None
  }

  /** `is_dirty`. */
  predicate IsDirty(e: Editor) {
    e.overrides != e.initialOverrides
  }

  /** What a caller may spawn in this editor. */
  function Allowed(e: Editor, caller: string): set<string> {
    AllowedTargets(e.overrides, e.defaultPermissions, e.allTargetsSet, caller)
  }

  /** `toggle_selected_target`. */
  function ToggleSelectedTarget(e: Editor): Editor {
    match (SelectedCaller(e), SelectedTarget(e))
    case (Some(caller), Some(target)) =>
      e.(overrides := ToggleWrite(e.overrides, e.defaultPermissions, e.allTargetsSet, caller, target))
    case _ => e
  }

  /** `set_allow_all_for_selected_caller`. */
  function SetAllowAllForSelectedCaller(e: Editor): Editor {
    match SelectedCaller(e)
    case Some(caller) => e.(overrides := AllowAllWrite(e.overrides, e.defaultPermissions, caller))
    case None => e
  }

  /** `clear_override_for_selected_caller`. */
  function ClearOverrideForSelectedCaller(e: Editor): Editor {
    match SelectedCaller(e)
    case Some(caller) => e.(overrides := e.overrides - {caller})
    case None => e
  }

  function OtherPanel(f: FocusPanel): FocusPanel {
    match f
    case Callers => Targets
    case Targets => Callers
  }

  /** `handle_key_event` for an action: the new state, and the override map sent to the app, if any. */
  function Apply(e: Editor, a: Action): (Editor, Option<map<string, seq<string>>>) {
    match a
    case FocusKey => (e.(focus := OtherPanel(e.focus)), None)
    case ActivateKey =>
      if e.focus == Callers then (e.(focus := Targets), None) else (ToggleSelectedTarget(e), None)
    case AllowAllKey => (SetAllowAllForSelectedCaller(e), None)
    case DefaultKey => (ClearOverrideForSelectedCaller(e), None)
    case SaveKey => (e.(complete := true), if IsDirty(e) then Some(BuildAllowOverrides(e.overrides)) else None)
    case QuitKey => (e.(complete := true), None)
    case OtherKey => (e, None)
  }

  // ----- Invariant -----

  /** Overrides stored only for listed callers and naming only listed targets. */
  predicate OverridesFit(overrides: map<string, OverridePermission>, e: Editor) {
    (forall c :: c in overrides ==> c in SpecIds(e.callers)) && OverridesWithin(overrides, e.allTargetsSet)
  }

  /** What the editor keeps true between actions. */
  predicate Valid(e: Editor) {
    e.allTargetsSet == SpecIds(e.targets)
    && e.defaultPermissions.Keys == SpecIds(e.callers)
    && DefaultsWithin(e.defaultPermissions, e.allTargetsSet)
    && OverridesFit(e.overrides, e)
    && OverridesFit(e.initialOverrides, e)
    && (e.callerSelected.Some? ==> e.callerSelected.value < |e.callers|)
    && (e.targetSelected.Some? ==> e.targetSelected.value < |e.targets|)
  }

  /** A listed caller or target is one of the listed identifiers. */
  lemma SelectedListed(e: Editor)
    ensures SelectedCaller(e).Some? ==> SelectedCaller(e).value in SpecIds(e.callers)
    ensures SelectedTarget(e).Some? ==> SelectedTarget(e).value in SpecIds(e.targets)
  {
  }

  /**
   * A freshly opened editor is valid and clean, focused on the callers, not complete, and selects
   * the first caller and target exactly when there are callers and targets to select.
   */
  lemma InitialValid(allowOverrides: seq<(string, seq<string>)>, plugins: Registry)
    ensures Valid(Initial(allowOverrides, plugins))
    ensures var e := Initial(allowOverrides, plugins);
      !IsDirty(e) && e.focus == Callers && !e.complete
      && (e.callerSelected.Some? <==> |e.callers| > 0)
      && (e.targetSelected.Some? <==> |e.callers| > 0 && |e.targets| > 0)
  {
    var callers := RoleSpecs(plugins.ui.agentConfigCallers, plugins);
    var targets := RoleSpecs(plugins.ui.agentConfigTargets, plugins);
    DefaultsForShape(plugins.spawnDefaultsAllow, SpecIds(callers), SpecIds(targets));
    ParseOverridesKept(allowOverrides, SpecIds(callers), SpecIds(targets));
  }

  // ----- Actions -----

  /** The parts of the editor that no action changes. */
  predicate SameConfig(e: Editor, e': Editor) {
    e'.callers == e.callers && e'.targets == e.targets && e'.allTargetsSet == e.allTargetsSet
    && e'.defaultPermissions == e.defaultPermissions && e'.initialOverrides == e.initialOverrides
    && e'.warnings == e.warnings && e'.callerSelected == e.callerSelected && e'.targetSelected == e.targetSelected
  }

  /** Every action keeps the editor valid and leaves its configuration, the selections and the initial overrides alone. */
  lemma ApplyPreservesValid(e: Editor, a: Action)
    requires Valid(e)
    ensures Valid(Apply(e, a).0) && SameConfig(e, Apply(e, a).0)
  {
    match a
    case ActivateKey => if e.focus == Targets { ToggleKeepsValid(e); }
    case AllowAllKey => AllowAllKeepsValid(e);
    case DefaultKey =>
    case _ =>
  }

  lemma ToggleKeepsValid(e: Editor)
    requires Valid(e)
    ensures Valid(ToggleSelectedTarget(e)) && SameConfig(e, ToggleSelectedTarget(e))
  {
    SelectedListed(e);
    if SelectedCaller(e).Some? && SelectedTarget(e).Some? {
      var caller := SelectedCaller(e).value;
      var t := SelectedTarget(e).value;
      var current := Allowed(e, caller);
      assert Within(DefaultPermission(e.defaultPermissions, caller), e.allTargetsSet);
      assert current <= e.allTargetsSet;
      NormalizedWriteWithin(e.overrides, DefaultPermission(e.defaultPermissions, caller), e.allTargetsSet, caller, Toggled(current, t));
    }
  }

  lemma AllowAllKeepsValid(e: Editor)
    requires Valid(e)
    ensures Valid(SetAllowAllForSelectedCaller(e)) && SameConfig(e, SetAllowAllForSelectedCaller(e))
  {
    SelectedListed(e);
    if SelectedCaller(e).Some? {
      AllowAllWriteWithin(e.overrides, e.defaultPermissions, e.allTargetsSet, SelectedCaller(e).value);
    }
  }

  /**
   * Saving and quitting complete the editor and change no permission, and the editor completes
   * on nothing else; only a save of a dirty editor sends anything, and what it sends is the
   * overrides in their saved form.
   */
  lemma ApplyCompletes(e: Editor, a: Action)
    ensures Apply(e, a).0.complete <==> e.complete || a == SaveKey || a == QuitKey
    ensures Apply(e, a).1.Some? <==> a == SaveKey && IsDirty(e)
    ensures Apply(e, a).1.Some? ==> Apply(e, a).1.value == BuildAllowOverrides(e.overrides)
    ensures a in {SaveKey, QuitKey, FocusKey, OtherKey} ==> Apply(e, a).0.overrides == e.overrides
  {
  }

  /**
   * On the targets list, activating flips exactly the selected target for the selected caller and
   * changes no other caller's override; with no caller or no target selected it changes nothing.
   */
  lemma ActivateFlipsSelected(e: Editor)
    requires e.focus == Targets
    ensures var e' := Apply(e, ActivateKey).0;
      match (SelectedCaller(e), SelectedTarget(e))
      case (Some(caller), Some(t)) =>
        (t in Allowed(e', caller) <==> t !in Allowed(e, caller))
        && (forall u :: u != t ==> (u in Allowed(e', caller) <==> u in Allowed(e, caller)))
        && e'.overrides - {caller} == e.overrides - {caller}
      case _ => e' == e
  {
    match (SelectedCaller(e), SelectedTarget(e))
    case (Some(caller), Some(t)) =>
      ToggleWriteFlips(e.overrides, e.defaultPermissions, e.allTargetsSet, caller, t);
    case _ =>
  }

  /** Activating the same target twice leaves the selected caller allowed what it was allowed before. */
  lemma ActivateTwiceRestores(e: Editor)
    requires e.focus == Targets && SelectedCaller(e).Some?
    ensures var e'' := Apply(Apply(e, ActivateKey).0, ActivateKey).0;
      Allowed(e'', SelectedCaller(e).value) == Allowed(e, SelectedCaller(e).value)
      && e''.overrides - {SelectedCaller(e).value} == e.overrides - {SelectedCaller(e).value}
  {
    var caller := SelectedCaller(e).value;
    if SelectedTarget(e).Some? {
      ToggleTwiceRestores(e.overrides, e.defaultPermissions, e.allTargetsSet, caller, SelectedTarget(e).value);
    }
  }

  /**
   * Allow-all lets the selected caller spawn every target, keeps an override only when the default
   * does not already allow all, and leaves every other caller alone; use-default drops just the
   * selected caller's override, so that it gets its default back.
   */
  lemma AllowAllAndUseDefault(e: Editor)
    requires SelectedCaller(e).Some?
    ensures var caller := SelectedCaller(e).value;
      var allowAll := Apply(e, AllowAllKey).0;
      var useDefault := Apply(e, DefaultKey).0;
      Effective(allowAll.overrides, e.defaultPermissions, caller).0 == All
      && (caller in allowAll.overrides <==> DefaultPermission(e.defaultPermissions, caller) != All)
      && allowAll.overrides - {caller} == e.overrides - {caller}
      && Effective(useDefault.overrides, e.defaultPermissions, caller) == (DefaultPermission(e.defaultPermissions, caller), DefaultOrigin)
      && useDefault.overrides == e.overrides - {caller}
  {
    var caller := SelectedCaller(e).value;
    AllowAllWriteEffect(e.overrides, e.defaultPermissions, caller);
    ClearRestoresDefault(e.overrides, e.defaultPermissions, caller);
  }

  /** With no caller selected, allow-all and use-default change nothing. */
  lemma NoCallerNoEdit(e: Editor)
    requires SelectedCaller(e).None?
    ensures Apply(e, AllowAllKey).0 == e && Apply(e, DefaultKey).0 == e
    ensures e.focus == Targets ==> Apply(e, ActivateKey).0 == e
  {
  }

  // ----- Saving -----

  /** Listed roles are registry roles, so their identifiers are normalised when the registry's keys are its roles' identifiers. */
  lemma RoleSpecsNormalized(ids: seq<string>, reg: Registry)
    requires KeysAreIds(reg)
    ensures forall id :: id in SpecIds(RoleSpecs(ids, reg)) ==> IsNormalized(id)
  {
    var specs := RoleSpecs(ids, reg);
    RoleSpecsFacts(ids, reg);
    forall id | id in SpecIds(specs) ensures IsNormalized(id) {
      var k :| 0 <= k < |specs| && specs[k].id == id;
      assert NamesRole(ids, reg, specs[k]);
      var i :| 0 <= i < |ids| && Named(reg, ids[i]) == Some(specs[k]);
      NormalizeIdIsNormalized(ids[i]);
    }
  }

  /**
   * What a save sends reads back, through the same parser the editor opens with, as exactly the
   * overrides that were saved and without warnings, provided no target role is itself named `*`
   * or `all` and the saved callers are normalised.
   */
  lemma SaveReadsBack(e: Editor, entries: seq<(string, seq<string>)>)
    requires Valid(e) && IsDirty(e)
    requires forall id :: id in SpecIds(e.callers) ==> IsNormalized(id)
    requires forall t :: t in e.allTargetsSet ==> IsNormalized(t) && t != "*" && t != "all"
    requires Enumerates(entries, Apply(e, SaveKey).1.value)
    ensures ParseOverrides(entries, SpecIds(e.callers), e.allTargetsSet) == Parsed(e.overrides, [])
  {
    SaveReadRoundTrip(e.overrides, SpecIds(e.callers), e.allTargetsSet, entries);
  }
}
