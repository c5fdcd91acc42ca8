/**
 * `AgentSpawnConfigView`, the editor of which roles each caller role may spawn: the loops that
 * build its role lists, defaults and overrides, and the class whose methods edit the overrides.
 * Each method is proved to do what the editor value in `SpawnEditor` does.
 */
module SpawnConfigView {
  import opened Wrappers
  import opened Ordering
  import opened RoleIds
  import opened Plugins
  import opened SpawnPermissions
  import opened SpawnEditor

  // ----- Builders -----

  /** `build_role_specs`: the registry roles the identifiers name, each once, in first-mention order. */
  method BuildRoleSpecs(ids: seq<string>, plugins: Registry) returns (specs: seq<RoleSpec>)
    ensures specs == RoleSpecs(ids, plugins)
  {
    specs := [];
    var seen: set<string> := {};
    var i := 0;
    while i < |ids|
      invariant 0 <= i <= |ids|
      invariant specs + RoleSpecsFrom(ids[i..], plugins, seen) == RoleSpecs(ids, plugins)
    {
      assert ids[i..][0] == ids[i] && ids[i..][1..] == ids[i + 1..];
      match Role(plugins, ids[i]) {
        case None =>
        case Some(role) =>
          if role.id !in seen {
            seen := seen + {role.id};
            assert specs + ([RoleSpec(role.id, role.displayName)] + RoleSpecsFrom(ids[i + 1..], plugins, seen))
                == (specs + [RoleSpec(role.id, role.displayName)]) + RoleSpecsFrom(ids[i + 1..], plugins, seen);
            specs := specs + [RoleSpec(role.id, role.displayName)];
          }
      }
      i := i + 1;
    }
  }

  /** `build_default_permissions`: one default per caller, visiting the callers in ascending order. */
  method BuildDefaultPermissions(plugins: Registry, callerIds: set<string>, targetIds: set<string>)
    returns (defaults: map<string, EffectivePermission>)
    ensures defaults == DefaultsFor(plugins.spawnDefaultsAllow, callerIds, targetIds)
  {
    var order := SortedElements(callerIds);
    defaults := map[];
    var i := 0;
    while i < |order|
      invariant 0 <= i <= |order|
      invariant forall c :: c in defaults <==> c in order[..i]
      invariant forall c :: c in defaults ==> defaults[c] == DefaultFor(plugins.spawnDefaultsAllow, c, targetIds)
    {
      var caller := order[i];
      var permission := DefaultForCaller(plugins, caller, targetIds);
      assert order[..i + 1] == order[..i] + [caller];
      defaults := defaults[caller := permission];
      i := i + 1;
    }
    assert order[..i] == order;
  }

  /** One iteration of `build_default_permissions`. */
  method DefaultForCaller(plugins: Registry, caller: string, targetIds: set<string>) returns (permission: EffectivePermission)
    ensures permission == DefaultFor(plugins.spawnDefaultsAllow, caller, targetIds)
  {
    if caller !in plugins.spawnDefaultsAllow {
      return NoTargets;
    }
    var allowed := plugins.spawnDefaultsAllow[caller];
    if AnyAllowAll(allowed) {
      return All;
    }
    var allowList := KnownTargets(allowed, targetIds);
    permission := if allowList == {} then NoTargets else AllowList(allowList);
  }

  /** The known targets named grow one token at a time. */
  lemma KnownTargetsSnoc(tokens: seq<string>, targets: set<string>, i: nat)
    requires i < |tokens|
    ensures KnownTargets(tokens[..i + 1], targets)
         == KnownTargets(tokens[..i], targets) + (if NormalizeId(tokens[i]) in targets then {NormalizeId(tokens[i])} else {})
  {
    var before := KnownTargets(tokens[..i], targets);
    var after := KnownTargets(tokens[..i + 1], targets);
    forall t | t in after ensures t in before + (if NormalizeId(tokens[i]) in targets then {NormalizeId(tokens[i])} else {}) {
      var j :| 0 <= j < i + 1 && NormalizeId(tokens[..i + 1][j]) in targets && NormalizeId(tokens[..i + 1][j]) == t;
      if j < i {
        assert tokens[..i + 1][j] == tokens[..i][j];
      }
    }
    forall t | t in before ensures t in after {
      var j :| 0 <= j < i && NormalizeId(tokens[..i][j]) in targets && NormalizeId(tokens[..i][j]) == t;
      assert tokens[..i][j] == tokens[..i + 1][j];
    }
    if NormalizeId(tokens[i]) in targets {
      assert tokens[..i + 1][i] == tokens[i];
    }
  }

  /** The unknown tokens grow one token at a time. */
  lemma UnknownTargetsSnoc(tokens: seq<string>, targets: set<string>, i: nat)
    requires i < |tokens|
    ensures UnknownTargets(tokens[..i + 1], targets)
         == UnknownTargets(tokens[..i], targets) + (if NormalizeId(tokens[i]) in targets then [] else [tokens[i]])
  {
    assert tokens[..i + 1] == tokens[..i] + [tokens[i]];
    FilterAppend(tokens[..i], [tokens[i]], UnknownIn(targets));
    assert [tokens[i]][1..] == [];
  }

  /** The inner loop of `parse_overrides`: the known targets the tokens name, and the tokens naming none, in order. */
  method ParseTargetTokens(tokens: seq<string>, targets: set<string>) returns (allowList: set<string>, unknown: seq<string>)
    ensures allowList == KnownTargets(tokens, targets)
    ensures unknown == UnknownTargets(tokens, targets)
  {
    allowList := {};
    unknown := [];
    var i := 0;
    while i < |tokens|
      invariant 0 <= i <= |tokens|
      invariant allowList == KnownTargets(tokens[..i], targets)
      invariant unknown == UnknownTargets(tokens[..i], targets)
    {
      KnownTargetsSnoc(tokens, targets, i);
      UnknownTargetsSnoc(tokens, targets, i);
      var target := NormalizeId(tokens[i]);
      if target in targets {
        allowList := allowList + {target};
      } else {
        unknown := unknown + [tokens[i]];
      }
      i := i + 1;
    }
    assert tokens[..i] == tokens;
  }

  /** One iteration of `parse_overrides`. */
  method ParseOverrideEntry(overrides: map<string, OverridePermission>, warnings: seq<string>, entry: (string, seq<string>),
                            callerIds: set<string>, targetIds: set<string>)
    returns (overrides': map<string, OverridePermission>, warnings': seq<string>)
    ensures Parsed(overrides', warnings') == ParseEntry(Parsed(overrides, warnings), entry, callerIds, targetIds)
  {
    var (callerRaw, allowedRaw) := entry;
    var caller := NormalizeId(callerRaw);
    if caller !in callerIds {
      return overrides, warnings + [UnknownCallerWarning(callerRaw)];
    }
    if AnyAllowAll(allowedRaw) {
      return overrides[caller := OverrideAll], warnings;
    }
    var allowList, unknownTargets := ParseTargetTokens(allowedRaw, targetIds);
    warnings' := warnings;
    if unknownTargets != [] {
      warnings' := warnings' + [UnknownTargetsWarning(callerRaw, unknownTargets)];
    }
    overrides' := overrides[caller := OverrideList(allowList)];
  }

  /** `parse_overrides`, over the persisted map's entries in its iteration order. */
  method ParseAllowOverrides(allowOverrides: seq<(string, seq<string>)>, callerIds: set<string>, targetIds: set<string>)
    returns (overrides: map<string, OverridePermission>, warnings: seq<string>)
    ensures Parsed(overrides, warnings) == ParseOverrides(allowOverrides, callerIds, targetIds)
  {
    overrides := map[];
    warnings := [];
    var i := 0;
    while i < |allowOverrides|
      invariant 0 <= i <= |allowOverrides|
      invariant ParseFrom(allowOverrides[i..], callerIds, targetIds, Parsed(overrides, warnings))
             == ParseOverrides(allowOverrides, callerIds, targetIds)
    {
      assert allowOverrides[i..][0] == allowOverrides[i] && allowOverrides[i..][1..] == allowOverrides[i + 1..];
      overrides, warnings := ParseOverrideEntry(overrides, warnings, allowOverrides[i], callerIds, targetIds);
      i := i + 1;
    }
  }

  // ----- The editor -----

  class AgentSpawnConfigView {
    var focus: FocusPanel
    var complete: bool
    var callers: seq<RoleSpec>
    var targets: seq<RoleSpec>
    var allTargetsSet: set<string>
    var defaultPermissions: map<string, EffectivePermission>
    var callerSelected: Option<nat>
    var targetSelected: Option<nat>
    var overrides: map<string, OverridePermission>
    var initialOverrides: map<string, OverridePermission>
    var warnings: seq<string>

    /** The editor's fields as an editor value. */
    function State(): Editor
      reads this
    {
      Editor(focus, complete, callers, targets, allTargetsSet, defaultPermissions,
             callerSelected, targetSelected, overrides, initialOverrides, warnings)
    }

    predicate Valid()
      reads this
    {
      SpawnEditor.Valid(State())
    }

    /** `new`: role lists from the registry, defaults, the persisted overrides read in, and the first entries selected. */
    constructor(allowOverrides: seq<(string, seq<string>)>, plugins: Registry)
      ensures State() == Initial(allowOverrides, plugins)
      ensures Valid() && !IsDirty(State())
    {
      var callerSpecs := BuildRoleSpecs(plugins.ui.agentConfigCallers, plugins);
      var targetSpecs := BuildRoleSpecs(plugins.ui.agentConfigTargets, plugins);
      var callerIds := SpecIds(callerSpecs);
      var allTargets := SpecIds(targetSpecs);
      var defaults := BuildDefaultPermissions(plugins, callerIds, allTargets);
      var parsedOverrides, parsedWarnings := ParseAllowOverrides(allowOverrides, callerIds, allTargets);
      focus := Callers;
      complete := false;
      callers := callerSpecs;
      targets := targetSpecs;
      allTargetsSet := allTargets;
      defaultPermissions := defaults;
      callerSelected := None;
      targetSelected := None;
      overrides := parsedOverrides;
      initialOverrides := parsedOverrides;
      warnings := parsedWarnings;
      new;
      InitializeSelection();
      InitialValid(allowOverrides, plugins);
    }

    /** `initialize_selection`. */
    method InitializeSelection()
      modifies this
      ensures State() == SpawnEditor.InitializeSelection(old(State()))
    {
      if |callers| == 0 {
        callerSelected := None;
        targetSelected := None;
      } else {
        callerSelected := Some(0);
        targetSelected := if |targets| == 0 then None else Some(0);
      }
    }

    /** `clear_override_for_selected_caller`. */
    method ClearOverrideForSelectedCaller()
      modifies this
      ensures State() == SpawnEditor.ClearOverrideForSelectedCaller(old(State()))
    {
      match SelectedCaller(State()) {
        case None =>
        case Some(caller) => overrides := overrides - {caller};
      }
    }

    /** `set_allow_all_for_selected_caller`. */
    method SetAllowAllForSelectedCaller()
      modifies this
      ensures State() == SpawnEditor.SetAllowAllForSelectedCaller(old(State()))
    {
      match SelectedCaller(State()) {
        case None =>
        case Some(caller) =>
          if DefaultPermission(defaultPermissions, caller) == All {
            overrides := overrides - {caller};
          } else {
            overrides := overrides[caller := OverrideAll];
          }
      }
    }

    /** `set_override_allowlist_normalized`. */
    method SetOverrideAllowlistNormalized(caller: string, allowList: set<string>)
      modifies this
      ensures State() == old(State()).(overrides :=
        NormalizedWrite(old(overrides), DefaultPermission(defaultPermissions, caller), allTargetsSet, caller, allowList))
    {
      match DefaultPermission(defaultPermissions, caller) {
        case All =>
          if allowList == allTargetsSet {
            overrides := overrides - {caller};
          } else {
            overrides := overrides[caller := OverrideList(allowList)];
          }
        case AllowList(defaultAllowed) =>
          if allowList == defaultAllowed {
            overrides := overrides - {caller};
          } else {
            overrides := overrides[caller := OverrideList(allowList)];
          }
        case NoTargets =>
          if allowList == {} {
            overrides := overrides - {caller};
          } else {
            overrides := overrides[caller := OverrideList(allowList)];
          }
      }
    }

    /** `toggle_selected_target`. */
    method ToggleSelectedTarget()
      modifies this
      ensures State() == SpawnEditor.ToggleSelectedTarget(old(State()))
    {
      var selectedCaller := SelectedCaller(State());
      if selectedCaller.None? {
        return;
      }
      if targetSelected.None? {
        return;
      }
      var selectedTarget := SelectedTarget(State());
      if selectedTarget.None? {
        return;
      }
      var caller := selectedCaller.value;
      var target := selectedTarget.value;
      var allowList := match Effective(overrides, defaultPermissions, caller).0
        case All => allTargetsSet
        case AllowList(allowed) => allowed
        case NoTargets => {};
      if target in allowList {
        allowList := allowList - {target};
      } else {
        allowList := allowList + {target};
      }
      SetOverrideAllowlistNormalized(caller, allowList);
    }

    /** `handle_key_event` for the key's action; what it returns is the override map sent to the app, if any. */
    method HandleAction(a: Action) returns (emitted: Option<map<string, seq<string>>>)
      modifies this
      ensures (State(), emitted) == Apply(old(State()), a)
      ensures old(Valid()) ==> Valid()
    {
      ghost var before := State();
      emitted := None;
      match a {
        case FocusKey =>
          focus := OtherPanel(focus);
        case ActivateKey =>
          if focus == Callers {
            focus := Targets;
          } else {
            ToggleSelectedTarget();
          }
        case AllowAllKey =>
          SetAllowAllForSelectedCaller();
        case DefaultKey =>
          ClearOverrideForSelectedCaller();
        case SaveKey =>
          if overrides != initialOverrides {
            emitted := Some(BuildAllowOverrides(overrides));
          }
          complete := true;
        case QuitKey =>
          complete := true;
        case OtherKey =>
      }
      if SpawnEditor.Valid(before) {
        ApplyPreservesValid(before, a);
      }
    }

    /** `on_ctrl_c`: the editor completes and nothing else changes. */
    method OnCtrlC()
      modifies this
      ensures State() == old(State()).(complete := true)
    {
      complete := true;
    }
  }
}
